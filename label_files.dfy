/** The text files an image's annotation is saved to and read from (Ann.py:179-257), the
    one-line image record that parseLine0 reads (Ann.py:494-503) and the names of the
    per-object mask files (Ann.py:148-149). A file system is a map from path to content. */
module LabelFiles {
  import opened Wrappers
  import opened TextFormat
  import opened ObjectTable

  // ---------------------------------------------------------------------------------------
  // <image>.labels.txt

  function LabelsPath(annotationDir: string, fname: string): string {
    annotationDir + fname + ".labels.txt"
  }

  /** str(v) + ' ' for each value in turn: how toTxtFile and toTxtBoxFile write numbers. */
  function Fields(vals: seq<int>): string {
    if vals == [] then "" else IntToString(vals[0]) + " " + Fields(vals[1..])
  }

  /** The tokens of the values. */
  function Words(vals: seq<int>): seq<string> {
    seq(|vals|, k requires 0 <= k < |vals| => IntToString(vals[k]))
  }

  /** The integers of a line's tokens, in order, or None when one of them is not an integer
      (Python's int() raises ValueError at the first such token). */
  function ParseInts(toks: seq<string>): (r: Option<seq<int>>)
    ensures r.Some? <==> forall k {:trigger ParseInt(toks[k])} :: 0 <= k < |toks| ==> ParseInt(toks[k]).Some?
    ensures r.Some? ==> |r.value| == |toks| && forall k {:trigger r.value[k]} :: 0 <= k < |toks| ==> ParseInt(toks[k]) == Some(r.value[k])
  {
    if toks == [] then Some([])
    else match (ParseInt(toks[0]), ParseInts(toks[1..]))
      case (Some(v), Some(vs)) => Some([v] + vs)
      case (None, _) => None
      case (_, None) => None
  }

  lemma {:induction false} SplitFields(vals: seq<int>, rest: string)
    ensures Split(Fields(vals) + rest) == Words(vals) + Split(rest)
  {
    if vals != [] {
      SplitFields(vals[1..], rest);
      SplitFieldsStep(vals, rest);
    } else {
      assert Fields(vals) + rest == rest;
    }
  }

  /** The inductive step of SplitFields: one more field in front. */
  lemma SplitFieldsStep(vals: seq<int>, rest: string)
    requires vals != []
    requires Split(Fields(vals[1..]) + rest) == Words(vals[1..]) + Split(rest)
    ensures Split(Fields(vals) + rest) == Words(vals) + Split(rest)
  {
    SplitFieldsCons(vals, rest);
    WordsCons(vals);
    ConsThenAppend(Split(Fields(vals) + rest), Split(Fields(vals[1..]) + rest), IntToString(vals[0]),
                   Words(vals[1..]), Split(rest), Words(vals));
  }

  /** The sequence step behind SplitFieldsStep, stated over plain sequences. */
  lemma ConsThenAppend(whole: seq<string>, tail: seq<string>, w: string, ws: seq<string>, sr: seq<string>,
                       front: seq<string>)
    requires whole == [w] + tail && tail == ws + sr && front == [w] + ws
    ensures whole == front + sr
  {
  }

  /** The first field splits off as the first token. */
  lemma SplitFieldsCons(vals: seq<int>, rest: string)
    requires vals != []
    ensures Split(Fields(vals) + rest) == [IntToString(vals[0])] + Split(Fields(vals[1..]) + rest)
  {
    FieldsCons(vals, rest);
    SplitWordThenSpace(IntToString(vals[0]), Fields(vals[1..]) + rest);
  }

  lemma FieldsCons(vals: seq<int>, rest: string)
    requires vals != []
    ensures Fields(vals) + rest == IntToString(vals[0]) + " " + (Fields(vals[1..]) + rest)
  {
    var w, f := IntToString(vals[0]), Fields(vals[1..]);
    calc {
      Fields(vals) + rest;
      (w + " " + f) + rest;
      w + " " + (f + rest);
    }
  }

  lemma WordsCons(vals: seq<int>)
    requires vals != []
    ensures Words(vals) == [IntToString(vals[0])] + Words(vals[1..])
  {
  }

  /** int() reads back every value str() wrote. */
  lemma ParseWords(vals: seq<int>)
    ensures ParseInts(Words(vals)) == Some(vals)
  {
    var ws := Words(vals);
    forall k | 0 <= k < |vals| ensures ParseInt(ws[k]) == Some(vals[k]) {
      IntStringRoundTrip(vals[k]);
    }
    var r := ParseInts(ws);
    assert r.Some?;
    assert forall k :: 0 <= k < |vals| ==> r.value[k] == vals[k];
    assert r.value == vals;
  }

  lemma {:induction false} NoNewlineInFields(vals: seq<int>)
    ensures '\n' !in Fields(vals)
  {
    if vals != [] {
      NoNewlineInWord(IntToString(vals[0]));
      NoNewlineInFields(vals[1..]);
    }
  }

  lemma NoNewlineInWord(w: string)
    requires IsWord(w)
    ensures '\n' !in w
  {
    forall i | 0 <= i < |w| ensures w[i] != '\n' {
    }
  }

  /** toTxtFile can write an object only when it has a text: `None.toUtf8()` raises. */
  predicate AllHaveText(objs: seq<Obj>) {
    forall k :: 0 <= k < |objs| ==> objs[k].text.Some?
  }

  /** The line toTxtFile writes for one object (Ann.py:223-228): id, x1, y1, w and h, each
      followed by a space, then the text. */
  function LabelLine(o: Obj): string
    requires o.text.Some?
  {
    Fields([o.id, o.x1, o.y1, o.w, o.h]) + o.text.value
  }

  function LabelLines(objs: seq<Obj>): seq<string>
    requires AllHaveText(objs)
  {
    seq(|objs|, k requires 0 <= k < |objs| => LabelLine(objs[k]))
  }

  /** The object lines of one more object, after a header. */
  lemma LabelLinesSnoc(head: seq<string>, objs: seq<Obj>, i: nat)
    requires i < |objs| && AllHaveText(objs)
    ensures AllHaveText(objs[..i]) && AllHaveText(objs[..i + 1])
    ensures head + LabelLines(objs[..i + 1]) == (head + LabelLines(objs[..i])) + [LabelLine(objs[i])]
  {
    assert LabelLines(objs[..i + 1]) == LabelLines(objs[..i]) + [LabelLine(objs[i])];
  }

  /** The content toTxtFile writes (Ann.py:220-228): the image file name, then for each
      object a '\n' and its line. There is no final '\n'. */
  function LabelsText(fname: string, objs: seq<Obj>): string
    requires AllHaveText(objs)
  {
    Unlines([fname] + LabelLines(objs))
  }

  /** The files after toTxtFile: an image without objects writes nothing (Ann.py:213), so
      an older file for it stays where it was. */
  function SavedLabels(files: map<string, string>, annotationDir: string, fname: string, objs: seq<Obj>)
    : (r: map<string, string>)
    requires AllHaveText(objs)
    ensures |objs| == 0 ==> r == files
    ensures |objs| > 0 ==>
      LabelsPath(annotationDir, fname) in r && r[LabelsPath(annotationDir, fname)] == LabelsText(fname, objs)
    ensures forall p :: p in files && p != LabelsPath(annotationDir, fname) ==> p in r && r[p] == files[p]
    ensures forall p :: p in r ==> p in files || p == LabelsPath(annotationDir, fname)
  {
    if |objs| == 0 then files else files[LabelsPath(annotationDir, fname) := LabelsText(fname, objs)]
  }

  /** What loadTxtFile makes of one object line (Ann.py:190-205): fewer than six tokens end
      the load (Short); a non-integer among the first five raises ValueError (BadInt);
      otherwise tokens five and later, rejoined with single spaces, are the text. */
  datatype LineParse = Short | BadInt | Parsed(obj: Obj)

  function ParseLabelLine(line: string): (r: LineParse)
    ensures r.Short? <==> |Split(line)| < 6
    ensures r.BadInt? <==> |Split(line)| >= 6 && ParseInts(Split(line)[..5]).None?
    ensures r.Parsed? ==> ParseInts(Split(line)[..5]) == Some([r.obj.id, r.obj.x1, r.obj.y1, r.obj.w, r.obj.h])
  {
    var toks := Split(line);
    if |toks| < 6 then Short
    else match ParseInts(toks[..5])
      case Some(v) =>
        assert v == [v[0], v[1], v[2], v[3], v[4]];
        Parsed(Obj(v[0], v[1], v[2], v[3], v[4], Some(Join(toks[5..]))))
      case None => BadInt
  }

  /** How a load ends: all lines read, stopped at a short line, or stopped by ValueError. */
  datatype LoadEnd = Complete | Aborted | Raised

  datatype Loaded = Loaded(objs: seq<Obj>, end: LoadEnd)

  /** loadTxtFile's loop over the object lines (Ann.py:189-206): the objects of the lines
      before the first line that does not parse, in file order, and why the loop ended.
      The objects read before a bad line stay loaded. */
  function ParseLabels(lines: seq<string>): (r: Loaded)
    ensures |r.objs| <= |lines|
    ensures r.end == Complete <==> |r.objs| == |lines|
  {
    if lines == [] then Loaded([], Complete)
    else match ParseLabelLine(lines[0])
      case Short => Loaded([], Aborted)
      case BadInt => Loaded([], Raised)
      case Parsed(o) =>
        var rest := ParseLabels(lines[1..]);
        Loaded([o] + rest.objs, rest.end)
  }

  /** Each loaded object is what its own line parses to, and a load that stops early stops
      at the first line that does not parse, for the reason that line gives. */
  lemma {:induction false} ParseLabelsLines(lines: seq<string>)
    ensures var r := ParseLabels(lines);
      && (forall k {:trigger r.objs[k]} :: 0 <= k < |r.objs| ==> ParseLabelLine(lines[k]) == Parsed(r.objs[k]))
      && (r.end == Aborted ==> ParseLabelLine(lines[|r.objs|]) == Short)
      && (r.end == Raised ==> ParseLabelLine(lines[|r.objs|]) == BadInt)
  {
    if lines != [] && ParseLabelLine(lines[0]).Parsed? {
      ParseLabelsLines(lines[1..]);
    }
  }

  /** What loadTxtFile has read once `done` objects are appended and the lines from k on
      are still to be read. */
  predicate LoadedSoFar(lines: seq<string>, k: nat, done: seq<Obj>)
    requires k <= |lines|
  {
    var rest := ParseLabels(lines[k..]);
    ParseLabels(lines) == Loaded(done + rest.objs, rest.end)
  }

  /** loadTxtFile's loop starts with nothing read. */
  lemma LoadedSoFarStart(lines: seq<string>)
    ensures LoadedSoFar(lines, 0, [])
  {
    assert lines[0..] == lines;
  }

  /** loadTxtFile's loop at line k: a parsed line is appended and the loop goes on. */
  lemma LoadedSoFarStep(lines: seq<string>, k: nat, done: seq<Obj>, o: Obj)
    requires k < |lines| && LoadedSoFar(lines, k, done) && ParseLabelLine(lines[k]) == Parsed(o)
    ensures LoadedSoFar(lines, k + 1, done + [o])
  {
    var rest := lines[k..];
    assert rest[0] == lines[k] && rest[1..] == lines[k + 1..];
    var after := ParseLabels(lines[k + 1..]);
    assert ParseLabels(rest) == Loaded([o] + after.objs, after.end);
    assert done + ([o] + after.objs) == (done + [o]) + after.objs;
  }

  /** loadTxtFile's loop at line k: a line that does not parse ends the load. */
  lemma LoadedSoFarStop(lines: seq<string>, k: nat, done: seq<Obj>)
    requires k < |lines| && LoadedSoFar(lines, k, done) && !ParseLabelLine(lines[k]).Parsed?
    ensures ParseLabels(lines) == Loaded(done, if ParseLabelLine(lines[k]).Short? then Aborted else Raised)
  {
    var rest := lines[k..];
    assert rest[0] == lines[k];
    assert done + [] == done;
  }

  /** loadTxtFile's loop after the last line. */
  lemma LoadedSoFarEnd(lines: seq<string>, done: seq<Obj>)
    requires LoadedSoFar(lines, |lines|, done)
    ensures ParseLabels(lines) == Loaded(done, Complete)
  {
    assert lines[|lines|..] == [];
    assert done + [] == done;
  }

  /** The object lines: every line but the first (`range(1, len(lines))`, Ann.py:189). */
  function ObjectLines(lines: seq<string>): seq<string> {
    if |lines| == 0 then [] else lines[1..]
  }

  /** What loadTxtFile reads from a file with this content. */
  function ReadBack(content: string): Loaded {
    ParseLabels(ObjectLines(ReadLines(content)))
  }

  /** An object that survives a save and a load unchanged: it has a text, and the text is
      words separated by single spaces (loadTxtFile rejoins the tokens that way). */
  predicate Saveable(o: Obj) {
    o.text.Some? && IsLabel(o.text.value)
  }

  predicate AllSaveable(objs: seq<Obj>) {
    forall k :: 0 <= k < |objs| ==> Saveable(objs[k])
  }

  lemma LabelLineRoundTrip(o: Obj)
    requires Saveable(o)
    ensures ParseLabelLine(LabelLine(o)) == Parsed(o)
    ensures LabelLine(o) != [] && '\n' !in LabelLine(o)
  {
    var t := o.text.value;
    var vals := [o.id, o.x1, o.y1, o.w, o.h];
    LabelSplitJoin(t);
    SplitFields(vals, t);
    var toks := Split(LabelLine(o));
    assert toks[..5] == Words(vals);
    assert toks[5..] == Split(t);
    ParseWords(vals);
    LabelLineNoNewline(o);
  }

  /** An object line is one line of the file. */
  lemma LabelLineNoNewline(o: Obj)
    requires Saveable(o)
    ensures LabelLine(o) != [] && '\n' !in LabelLine(o)
  {
    var t := o.text.value;
    NoNewlineInFields([o.id, o.x1, o.y1, o.w, o.h]);
    assert '\n' !in t by {
      forall i | 0 <= i < |t| ensures t[i] != '\n' {
      }
    }
    assert LabelLine(o) == IntToString(o.id) + " " + Fields([o.x1, o.y1, o.w, o.h]) + t;
  }

  lemma ParseLinesRoundTrip(objs: seq<Obj>)
    requires AllSaveable(objs)
    ensures ParseLabels(LabelLines(objs)) == Loaded(objs, Complete)
  {
    var lines := LabelLines(objs);
    forall k | 0 <= k < |lines| ensures ParseLabelLine(lines[k]) == Parsed(objs[k]) {
      assert Saveable(objs[k]);
      LabelLineRoundTrip(objs[k]);
    }
    ParseLabelsLines(lines);
    var r := ParseLabels(lines);
    assert r.end == Complete;
    assert forall k :: 0 <= k < |objs| ==> r.objs[k] == objs[k];
    assert r.objs == objs;
  }

  /** Round trip: loadTxtFile reads back exactly the objects toTxtFile wrote, in the same
      order, provided the file name has no '\n' and every object is Saveable. */
  lemma LabelsRoundTrip(fname: string, objs: seq<Obj>)
    requires |objs| > 0 && '\n' !in fname && AllSaveable(objs)
    ensures ReadBack(LabelsText(fname, objs)) == Loaded(objs, Complete)
  {
    var lines := [fname] + LabelLines(objs);
    LabelsTextLines(fname, objs);
    assert ObjectLines(lines) == LabelLines(objs);
    ParseLinesRoundTrip(objs);
  }

  /** The lines of a .labels.txt file are the ones toTxtFile wrote. */
  lemma LabelsTextLines(fname: string, objs: seq<Obj>)
    requires |objs| > 0 && '\n' !in fname && AllSaveable(objs)
    ensures ReadLines(LabelsText(fname, objs)) == [fname] + LabelLines(objs)
  {
    var lines := LabelLines(objs);
    forall k | 0 <= k < |lines| ensures '\n' !in lines[k] && lines[k] != "" {
      assert Saveable(objs[k]);
      LabelLineNoNewline(objs[k]);
    }
    ReadLinesWithHeader([fname], lines);
  }

  /** The stale-file quirk: after the objects were saved, deleting them all and saving
      again writes nothing, so the file still loads back as the old objects. */
  lemma StaleLabelsReload(files: map<string, string>, annotationDir: string, fname: string, objs: seq<Obj>)
    requires |objs| > 0 && '\n' !in fname && AllSaveable(objs)
    ensures var after := SavedLabels(SavedLabels(files, annotationDir, fname, objs), annotationDir, fname, []);
      LabelsPath(annotationDir, fname) in after &&
      ReadBack(after[LabelsPath(annotationDir, fname)]) == Loaded(objs, Complete)
  {
    LabelsRoundTrip(fname, objs);
  }

  /** Every object loadTxtFile reads is Saveable, so saving it and loading it again gives it
      back unchanged: the text is normalised once, on the first load. */
  lemma LoadedAreSaveable(lines: seq<string>)
    ensures AllSaveable(ParseLabels(lines).objs)
  {
    ParseLabelsLines(lines);
    var r := ParseLabels(lines);
    forall k | 0 <= k < |r.objs| ensures Saveable(r.objs[k]) {
      var toks := Split(lines[k]);
      assert ParseLabelLine(lines[k]) == Parsed(r.objs[k]);
      assert r.objs[k].text == Some(Join(toks[5..]));
      JoinWordsSplit(toks[5..]);
    }
  }

  /** An object whose text has no words (empty, or whitespace only) is written as its five
      numbers alone, and loadTxtFile reads that line as too short. */
  lemma BlankTextIsShort(o: Obj)
    requires o.text.Some? && Split(o.text.value) == []
    ensures ParseLabelLine(LabelLine(o)) == Short
  {
    var vals := [o.id, o.x1, o.y1, o.w, o.h];
    SplitFields(vals, o.text.value);
    assert Split(LabelLine(o)) == Words(vals) + [];
  }

  /** A load whose lines parse up to line i, and line i is too short, stops there with the
      objects of the lines before it. */
  lemma {:induction false} StopsAtShort(lines: seq<string>, objs: seq<Obj>, i: nat)
    requires i < |lines| && i <= |objs| && ParseLabelLine(lines[i]) == Short
    requires forall k :: 0 <= k < i ==> ParseLabelLine(lines[k]) == Parsed(objs[k])
    ensures ParseLabels(lines) == Loaded(objs[..i], Aborted)
  {
    if i > 0 {
      assert ParseLabelLine(lines[0]) == Parsed(objs[0]);
      var tail, rest := lines[1..], objs[1..];
      forall k | 0 <= k < i - 1 ensures ParseLabelLine(tail[k]) == Parsed(rest[k]) {
        assert tail[k] == lines[k + 1] && rest[k] == objs[k + 1];
      }
      assert tail[i - 1] == lines[i];
      StopsAtShort(tail, rest, i - 1);
      assert objs[..i] == [objs[0]] + rest[..i - 1];
    }
  }

  /** An object line of an object with a blank text ends the load: that object and every
      later one are lost, though toTxtFile wrote them all. */
  lemma BlankTextAborts(objs: seq<Obj>, i: nat)
    requires AllHaveText(objs) && i < |objs|
    requires forall k :: 0 <= k < i ==> Saveable(objs[k])
    requires Split(objs[i].text.value) == []
    ensures ParseLabels(LabelLines(objs)) == Loaded(objs[..i], Aborted)
  {
    var lines := LabelLines(objs);
    forall k | 0 <= k < i ensures ParseLabelLine(lines[k]) == Parsed(objs[k]) {
      LabelLineRoundTrip(objs[k]);
    }
    BlankTextIsShort(objs[i]);
    StopsAtShort(lines, objs, i);
  }

  /** An object line whose text has no line end is one line of the file. */
  lemma LabelLineOneLine(o: Obj)
    requires o.text.Some? && '\n' !in o.text.value
    ensures LabelLine(o) != [] && '\n' !in LabelLine(o)
  {
    NoNewlineInFields([o.id, o.x1, o.y1, o.w, o.h]);
    assert LabelLine(o) == IntToString(o.id) + " " + Fields([o.x1, o.y1, o.w, o.h]) + o.text.value;
  }

  /** The saved file of an image where object i has an empty text (as a cancelled label
      dialog leaves it) loads back only the objects before i. */
  lemma EmptyTextLosesRest(fname: string, objs: seq<Obj>, i: nat)
    requires '\n' !in fname && i < |objs| && objs[i].text == Some("") && AllHaveText(objs)
    requires forall k :: 0 <= k < i ==> Saveable(objs[k])
    requires forall k :: i < k < |objs| ==> '\n' !in objs[k].text.value
    ensures ReadBack(LabelsText(fname, objs)) == Loaded(objs[..i], Aborted)
  {
    var lines := LabelLines(objs);
    forall k | 0 <= k < |lines| ensures '\n' !in lines[k] && lines[k] != "" {
      if k < i {
        assert Saveable(objs[k]);
        LabelLineNoNewline(objs[k]);
      } else {
        LabelLineOneLine(objs[k]);
      }
    }
    ReadLinesWithHeader([fname], lines);
    assert ObjectLines([fname] + lines) == lines;
    assert Split("") == [];
    BlankTextAborts(objs, i);
  }

  // ---------------------------------------------------------------------------------------
  // <image>.box.txt

  function BoxPath(annotationDir: string, fname: string): string {
    annotationDir + fname + ".box.txt"
  }

  /** Two images share a .labels.txt file exactly when they share a name, and likewise for
      .box.txt files. */
  lemma SavePathsInjective(annotationDir: string, a: string, b: string)
    ensures LabelsPath(annotationDir, a) == LabelsPath(annotationDir, b) <==> a == b
    ensures BoxPath(annotationDir, a) == BoxPath(annotationDir, b) <==> a == b
  {
    var la, lb := LabelsPath(annotationDir, a), LabelsPath(annotationDir, b);
    if la == lb {
      assert |a| == |b|;
      assert la[|annotationDir|..|annotationDir| + |a|] == a;
      assert lb[|annotationDir|..|annotationDir| + |b|] == b;
    }
    var ba, bb := BoxPath(annotationDir, a), BoxPath(annotationDir, b);
    if ba == bb {
      assert |a| == |b|;
      assert ba[|annotationDir|..|annotationDir| + |a|] == a;
      assert bb[|annotationDir|..|annotationDir| + |b|] == b;
    }
  }

  /** toTxtFile and toTxtBoxFile never write the same file, whatever the image names. */
  lemma LabelsAndBoxPathsDiffer(annotationDir: string, a: string, b: string)
    ensures LabelsPath(annotationDir, a) != BoxPath(annotationDir, b)
  {
    var l, x := LabelsPath(annotationDir, a), BoxPath(annotationDir, b);
    assert l[|l| - 8] == 'b' && x[|x| - 8] == '.';
  }

  /** The line toTxtBoxFile writes for one object (Ann.py:251-254): x1, y1, w and h, each
      followed by a space. */
  function BoxLine(o: Obj): string {
    Fields([o.x1, o.y1, o.w, o.h])
  }

  function BoxLines(objs: seq<Obj>): seq<string> {
    seq(|objs|, k requires 0 <= k < |objs| => BoxLine(objs[k]))
  }

  function SizeLine(width: int, height: int): string {
    IntToString(width) + " " + IntToString(height)
  }

  /** The box lines of one more object. */
  lemma BoxLinesSnoc(head: seq<string>, objs: seq<Obj>, i: nat)
    requires i < |objs|
    ensures head + BoxLines(objs[..i + 1]) == (head + BoxLines(objs[..i])) + [BoxLine(objs[i])]
  {
    assert BoxLines(objs[..i + 1]) == BoxLines(objs[..i]) + [BoxLine(objs[i])];
  }

  /** The content toTxtBoxFile writes (Ann.py:244-254): the image path, the image's width
      and height, then one line per object, separated by '\n'. */
  function BoxText(imagePath: string, width: int, height: int, objs: seq<Obj>): string {
    Unlines([imagePath, SizeLine(width, height)] + BoxLines(objs))
  }

  /** The files after toTxtBoxFile: nothing is written for an image without objects. */
  function SavedBoxes(files: map<string, string>, annotationDir: string, imagePath: string, fname: string,
                      width: int, height: int, objs: seq<Obj>): (r: map<string, string>)
    ensures |objs| == 0 ==> r == files
    ensures |objs| > 0 ==>
      BoxPath(annotationDir, fname) in r && r[BoxPath(annotationDir, fname)] == BoxText(imagePath, width, height, objs)
    ensures forall p :: p in files && p != BoxPath(annotationDir, fname) ==> p in r && r[p] == files[p]
    ensures forall p :: p in r ==> p in files || p == BoxPath(annotationDir, fname)
  {
    if |objs| == 0 then files else files[BoxPath(annotationDir, fname) := BoxText(imagePath, width, height, objs)]
  }

  datatype Box = Box(x1: int, y1: int, w: int, h: int)

  datatype BoxFile = BoxFile(imagePath: string, width: int, height: int, boxes: seq<Box>)

  function Boxes(objs: seq<Obj>): seq<Box> {
    seq(|objs|, k requires 0 <= k < |objs| => Box(objs[k].x1, objs[k].y1, objs[k].w, objs[k].h))
  }

  /** A line of four integers. */
  function BoxOfLine(line: string): Option<Box> {
    var v := ParseInts(Split(line));
    if v.Some? && |v.value| == 4 then Some(Box(v.value[0], v.value[1], v.value[2], v.value[3])) else None
  }

  function ReadBoxLines(lines: seq<string>): (r: Option<seq<Box>>)
    ensures r.Some? <==> forall k {:trigger BoxOfLine(lines[k])} :: 0 <= k < |lines| ==> BoxOfLine(lines[k]).Some?
    ensures r.Some? ==> |r.value| == |lines| && forall k {:trigger r.value[k]} :: 0 <= k < |lines| ==> BoxOfLine(lines[k]) == Some(r.value[k])
  {
    if lines == [] then Some([])
    else match (BoxOfLine(lines[0]), ReadBoxLines(lines[1..]))
      case (Some(b), Some(bs)) => Some([b] + bs)
      case (None, _) => None
      case (_, None) => None
  }

  /** A reader for the .box.txt layout: the image path, a line of two integers, then lines of
      four integers. The repository only writes this file; the reader is the format's
      reference, against which the writer is proved. */
  function ReadBoxFile(content: string): Option<BoxFile> {
    var lines := ReadLines(content);
    if |lines| < 2 then None
    else
      var size := ParseInts(Split(lines[1]));
      if size.None? || |size.value| != 2 then None
      else match ReadBoxLines(lines[2..])
        case None => None
        case Some(bs) => Some(BoxFile(lines[0], size.value[0], size.value[1], bs))
  }

  lemma BoxLineRoundTrip(o: Obj)
    ensures BoxOfLine(BoxLine(o)) == Some(Box(o.x1, o.y1, o.w, o.h))
    ensures BoxLine(o) != [] && '\n' !in BoxLine(o)
  {
    var vals := [o.x1, o.y1, o.w, o.h];
    SplitFields(vals, "");
    assert BoxLine(o) + "" == BoxLine(o);
    assert Split("") == [];
    assert Words(vals) + [] == Words(vals);
    ParseWords(vals);
    BoxLineNoNewline(o);
  }

  /** A box line is one line of the file. */
  lemma BoxLineNoNewline(o: Obj)
    ensures BoxLine(o) != [] && '\n' !in BoxLine(o)
  {
    var vals := [o.x1, o.y1, o.w, o.h];
    assert BoxLine(o) == IntToString(o.x1) + " " + Fields(vals[1..]);
    NoNewlineInFields(vals);
  }

  lemma BoxLinesRoundTrip(objs: seq<Obj>)
    ensures ReadBoxLines(BoxLines(objs)) == Some(Boxes(objs))
  {
    var lines := BoxLines(objs);
    forall k | 0 <= k < |lines| ensures BoxOfLine(lines[k]) == Some(Boxes(objs)[k]) {
      BoxLineRoundTrip(objs[k]);
    }
    var r := ReadBoxLines(lines);
    assert r.Some?;
    assert forall k :: 0 <= k < |objs| ==> r.value[k] == Boxes(objs)[k];
    assert r.value == Boxes(objs);
  }

  lemma SizeLineRoundTrip(width: int, height: int)
    ensures ParseInts(Split(SizeLine(width, height))) == Some([width, height])
    ensures '\n' !in SizeLine(width, height)
  {
    var sw, sh := IntToString(width), IntToString(height);
    SplitWord(sh);
    SplitWordThenSpace(sw, sh);
    assert Split(SizeLine(width, height)) == Words([width, height]);
    ParseWords([width, height]);
    SizeLineNoNewline(width, height);
  }

  /** The size line is one non-empty line of the file. */
  lemma SizeLineNoNewline(width: int, height: int)
    ensures SizeLine(width, height) != [] && '\n' !in SizeLine(width, height)
  {
    NoNewlineInWord(IntToString(width));
    NoNewlineInWord(IntToString(height));
  }

  /** Round trip of the writer: reading a .box.txt that toTxtBoxFile wrote gives back the
      image path, the image size and every object's box, in order. */
  lemma BoxFileRoundTrip(imagePath: string, width: int, height: int, objs: seq<Obj>)
    requires '\n' !in imagePath
    ensures ReadBoxFile(BoxText(imagePath, width, height, objs)) == Some(BoxFile(imagePath, width, height, Boxes(objs)))
  {
    var lines := [imagePath, SizeLine(width, height)] + BoxLines(objs);
    BoxTextLines(imagePath, width, height, objs);
    SizeLineRoundTrip(width, height);
    BoxLinesRoundTrip(objs);
    assert lines[2..] == BoxLines(objs);
    ReadBoxFileOf(BoxText(imagePath, width, height, objs), lines, imagePath, width, height, Boxes(objs));
  }

  /** The lines of a .box.txt file are the ones toTxtBoxFile wrote. */
  lemma BoxTextLines(imagePath: string, width: int, height: int, objs: seq<Obj>)
    requires '\n' !in imagePath
    ensures ReadLines(BoxText(imagePath, width, height, objs)) == [imagePath, SizeLine(width, height)] + BoxLines(objs)
  {
    SizeLineNoNewline(width, height);
    var lines := BoxLines(objs);
    forall k | 0 <= k < |lines| ensures '\n' !in lines[k] && lines[k] != "" {
      BoxLineNoNewline(objs[k]);
    }
    ReadLinesWithHeader([imagePath, SizeLine(width, height)], lines);
  }

  /** ReadBoxFile on content whose lines are known. */
  lemma ReadBoxFileOf(content: string, lines: seq<string>, imagePath: string, width: int, height: int,
                      bs: seq<Box>)
    requires ReadLines(content) == lines && |lines| >= 2 && lines[0] == imagePath
    requires ParseInts(Split(lines[1])) == Some([width, height])
    requires ReadBoxLines(lines[2..]) == Some(bs)
    ensures ReadBoxFile(content) == Some(BoxFile(imagePath, width, height, bs))
  {
  }

  // ---------------------------------------------------------------------------------------
  // parseLine0: "label count fname x1 y1 w h x1 y1 w h ..."

  /** The image parseLine0 builds: file name, whole-image label and objects. */
  datatype ImageRecord = ImageRecord(fname: string, imageLabel: int, objects: seq<Obj>)

  /** Object k of a parseLine0 line (Ann.py:501): the integers at token positions 4k+3 to
      4k+6, id k and no text; None where Python raises IndexError or ValueError. */
  function Box0At(toks: seq<string>, k: nat): (r: Option<Obj>)
    ensures r.None? <==> |toks| < 4 * k + 7 || ParseInts(toks[4 * k + 3 .. 4 * k + 7]).None?
    ensures r.Some? ==> |toks| >= 4 * k + 7 && r.value.id == k && r.value.text == None
    ensures r.Some? ==>
      ParseInts(toks[4 * k + 3 .. 4 * k + 7]) == Some([r.value.x1, r.value.y1, r.value.w, r.value.h])
  {
    if |toks| < 4 * k + 7 then None
    else match ParseInts(toks[4 * k + 3 .. 4 * k + 7])
      case Some(v) =>
        assert v == [v[0], v[1], v[2], v[3]];
        Some(Obj(k, v[0], v[1], v[2], v[3], None))
      case None => None
  }

  /** The loop `for i in range(count)` of parseLine0 (Ann.py:499-502), from object i on. */
  function Objects0(toks: seq<string>, i: nat, count: int): (r: Option<seq<Obj>>)
    ensures r.Some? <==> forall k :: i <= k < count ==> Box0At(toks, k).Some?
    ensures r.Some? ==> |r.value| == (if count > i then count - i else 0)
    ensures r.Some? ==> forall k {:trigger r.value[k]} :: 0 <= k < |r.value| ==> Box0At(toks, i + k) == Some(r.value[k])
    decreases count - i
  {
    if i >= count then Some([])
    else match Box0At(toks, i)
      case None => None
      case Some(o) =>
        match Objects0(toks, i + 1, count)
        case None => None
        case Some(rest) => Some([o] + rest)
  }

  /** parseLine0 (Ann.py:494-503): tokens 0 and 1 are the label and the object count,
      token 2 the file name; the objects get ids 0 .. count-1 and no text. None where
      Python raises. */
  function ParseLine0(line: string): (r: Option<ImageRecord>)
    ensures r.Some? ==> |Split(line)| >= 3 && r.value.fname == Split(line)[2]
    ensures r.Some? ==> ParseInt(Split(line)[0]) == Some(r.value.imageLabel)
    ensures r.Some? ==> forall k :: 0 <= k < |r.value.objects| ==>
      r.value.objects[k].id == k && r.value.objects[k].text == None
    ensures r.Some? ==> UniqueIds(r.value.objects)
  {
    var toks := Split(line);
    if |toks| < 3 then None
    else match (ParseInt(toks[0]), ParseInt(toks[1]))
      case (Some(lab), Some(count)) =>
        (match Objects0(toks, 0, count)
         case None => None
         case Some(objs) => Some(ImageRecord(toks[2], lab, objs)))
      case _ => None
  }

  /** The four numbers of each object, in order. */
  function Flat0(objs: seq<Obj>): (ws: seq<string>)
    ensures |ws| == 4 * |objs|
  {
    if objs == [] then [] else Words([objs[0].x1, objs[0].y1, objs[0].w, objs[0].h]) + Flat0(objs[1..])
  }

  lemma {:induction false} Flat0At(objs: seq<Obj>, k: nat)
    requires k < |objs|
    ensures Flat0(objs)[4 * k .. 4 * k + 4] == Words([objs[k].x1, objs[k].y1, objs[k].w, objs[k].h])
  {
    if k > 0 {
      Flat0At(objs[1..], k - 1);
      assert Flat0(objs)[4 * k .. 4 * k + 4] == Flat0(objs[1..])[4 * (k - 1) .. 4 * (k - 1) + 4];
    }
  }

  /** The line layout parseLine0 reads, written out: label, count, file name, then four
      integers per object, separated by single spaces. The repository no longer has a
      writer for it; this is the reference parseLine0 is proved against. */
  function Line0(rec: ImageRecord): string {
    Join([IntToString(rec.imageLabel), IntToString(|rec.objects|), rec.fname] + Flat0(rec.objects))
  }

  /** The tokens of Line0(rec) are its label, its object count, its file name and the four
      numbers of each object. */
  lemma Line0Tokens(rec: ImageRecord)
    requires IsWord(rec.fname)
    ensures Split(Line0(rec)) == [IntToString(rec.imageLabel), IntToString(|rec.objects|), rec.fname] + Flat0(rec.objects)
  {
    var ws := [IntToString(rec.imageLabel), IntToString(|rec.objects|), rec.fname] + Flat0(rec.objects);
    forall k | 0 <= k < |ws| ensures IsWord(ws[k]) {
      if k >= 3 {
        var j := (k - 3) / 4;
        Flat0At(rec.objects, j);
        assert ws[k] == Flat0(rec.objects)[4 * j .. 4 * j + 4][k - 3 - 4 * j];
      }
    }
    JoinWordsSplit(ws);
  }

  /** Object k is read back from the tokens of Line0(rec), with id k and no text. */
  lemma Box0AtLine0(rec: ImageRecord, ws: seq<string>, k: nat)
    requires ws == [IntToString(rec.imageLabel), IntToString(|rec.objects|), rec.fname] + Flat0(rec.objects)
    requires k < |rec.objects| && rec.objects[k].id == k && rec.objects[k].text == None
    ensures Box0At(ws, k) == Some(rec.objects[k])
  {
    var o := rec.objects[k];
    Flat0At(rec.objects, k);
    assert ws[4 * k + 3 .. 4 * k + 7] == Flat0(rec.objects)[4 * k .. 4 * k + 4];
    ParseWords([o.x1, o.y1, o.w, o.h]);
  }

  /** Objects0 collects exactly the objects Box0At reads. */
  lemma Objects0Of(toks: seq<string>, objs: seq<Obj>)
    requires forall k :: 0 <= k < |objs| ==> Box0At(toks, k) == Some(objs[k])
    ensures Objects0(toks, 0, |objs|) == Some(objs)
  {
    assert forall k :: 0 <= k < |objs| ==> Box0At(toks, k).Some?;
    var r := Objects0(toks, 0, |objs|);
    assert |r.value| == |objs|;
    forall k | 0 <= k < |objs| ensures r.value[k] == objs[k] {
      assert Box0At(toks, 0 + k) == Some(r.value[k]);
    }
    assert r.value == objs;
  }

  /** parseLine0 reads back every record whose objects are numbered 0, 1, ... and carry no
      text, as parseLine0 itself builds them. */
  lemma Line0RoundTrip(rec: ImageRecord)
    requires IsWord(rec.fname)
    requires forall k :: 0 <= k < |rec.objects| ==> rec.objects[k].id == k && rec.objects[k].text == None
    ensures ParseLine0(Line0(rec)) == Some(rec)
  {
    var n := |rec.objects|;
    var ws := [IntToString(rec.imageLabel), IntToString(n), rec.fname] + Flat0(rec.objects);
    Line0Tokens(rec);
    IntStringRoundTrip(rec.imageLabel);
    IntStringRoundTrip(n);
    forall k | 0 <= k < n ensures Box0At(ws, k) == Some(rec.objects[k]) {
      Box0AtLine0(rec, ws, k);
    }
    Objects0Of(ws, rec.objects);
  }

  // ---------------------------------------------------------------------------------------
  // <stem>.<id>.png

  /** Index of the last '.', or -1. */
  function LastDot(s: string): (k: int)
    ensures -1 <= k < |s|
    ensures k >= 0 ==> s[k] == '.'
    ensures forall j :: k < j < |s| ==> s[j] != '.'
  {
    if s == [] then -1
    else if s[|s| - 1] == '.' then |s| - 1
    else LastDot(s[..|s| - 1])
  }

  /** os.path.splitext(name)[0] for a file name without a directory part: the name without
      its last '.' and what follows, unless only dots come before that '.', in which case
      the name has no extension. */
  function Stem(name: string): (stem: string)
    ensures stem <= name
    ensures stem != name ==> name[|stem|] == '.' && forall j :: |stem| < j < |name| ==> name[j] != '.'
  {
    var d := LastDot(name);
    if d > 0 && exists j :: 0 <= j < d && name[j] != '.' then name[..d] else name
  }

  /** The mask file of object `id` (Ann.py:149, 162, 172). */
  function MaskPath(annotationDir: string, fname: string, id: int): string {
    annotationDir + Stem(fname) + "." + IntToString(id) + ".png"
  }

  /** Two objects share a mask file exactly when they share an id. */
  lemma MaskPathInjective(annotationDir: string, fname: string, a: int, b: int)
    ensures MaskPath(annotationDir, fname, a) == MaskPath(annotationDir, fname, b) <==> a == b
  {
    var p := annotationDir + Stem(fname) + ".";
    var sa, sb := IntToString(a), IntToString(b);
    var ma, mb := MaskPath(annotationDir, fname, a), MaskPath(annotationDir, fname, b);
    assert ma == p + sa + ".png" && mb == p + sb + ".png";
    if ma == mb {
      assert |sa| == |sb|;
      assert ma[|p|..|p| + |sa|] == sa;
      assert mb[|p|..|p| + |sb|] == sb;
      IntToStringInjective(a, b);
    }
  }
}
