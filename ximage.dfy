/** The XImage class (Ann.py:85-257): one image file, its whole-image label, its objects in
    the order they were added, and the `save` flag that says the objects changed since they
    were last written. Each method is proved against the value-level specification of its
    effect in ObjectTable and LabelFiles. */
module Images {
  import opened Wrappers
  import opened TextFormat
  import opened ObjectTable
  import opened LabelFiles

  /** How loadTxtFile ends: the image already had objects, there was no file, or the file
      was read (to the end, up to a short line, or up to a line that raised ValueError). */
  datatype LoadOutcome = NotEmpty | NoFile | Read(end: LoadEnd)

  class XImage {
    var fname: string
    var imageLabel: int
    var objects: seq<Obj>
    var save: bool

    /** XImage(fname, label) (Ann.py:86-92): no objects and nothing to save. */
    constructor (fname: string, imageLabel: int)
      ensures this.fname == fname && this.imageLabel == imageLabel
      ensures objects == [] && !save
    {
      this.fname := fname;
      this.imageLabel := imageLabel;
      objects := [];
      save := false;
    }

    /** checkID (Ann.py:98-101): whether some object uses `id`. */
    method CheckID(id: int) returns (used: bool)
      ensures used <==> exists j :: 0 <= j < |objects| && objects[j].id == id
    {
      var i := 0;
      while i < |objects|
        invariant 0 <= i <= |objects|
        invariant forall j :: 0 <= j < i ==> objects[j].id != id
      {
        if objects[i].id == id {
          return true;
        }
        i := i + 1;
      }
      return false;
    }

    /** getID (Ann.py:103-108): the smallest non-negative id no object uses. */
    method GetID() returns (id: int)
      ensures 0 <= id <= |objects|
      ensures !UsesId(objects, id)
      ensures forall j :: 0 <= j < id ==> UsesId(objects, j)
    {
      var n := |objects|;
      var i := 0;
      while i < n
        invariant 0 <= i <= n
        invariant forall j :: 0 <= j < i ==> UsesId(objects, j)
      {
        var used := CheckID(i);
        if !used {
          return i;
        }
        i := i + 1;
      }
      FullPrefixLeavesCountFree(objects);
      return n;
    }

    /** addObject (Ann.py:113-116): the new object goes at the end and the image is dirty. */
    method AddObject(x1: int, y1: int, id: int, w: int, h: int, text: Option<string>)
      modifies this
      ensures objects == old(objects) + [Obj(id, x1, y1, w, h, text)]
      ensures save
      ensures fname == old(fname) && imageLabel == old(imageLabel)
    {
      objects := objects + [Obj(id, x1, y1, w, h, text)];
      save := true;
    }

    /** deleteObject (Ann.py:118-122). The list is changed while it is iterated over, so
        after a removal the object that moves into the freed position is stepped over. The
        image is dirty exactly when some object had the id. */
    method DeleteObject(id: int)
      modifies this
      ensures objects == Removed(old(objects), id)
      ensures save == (old(save) || UsesId(old(objects), id))
      ensures fname == old(fname) && imageLabel == old(imageLabel)
    {
      ghost var original := objects;
      var i := 0;
      assert objects[..0] + objects[0..] == objects;
      while i < |objects|
        invariant 0 <= i <= |objects| <= |original|
        invariant objects[..i] + Removed(objects[i..], id) == Removed(original, id)
        invariant save == (old(save) || |objects| < |original|)
        invariant fname == old(fname) && imageLabel == old(imageLabel)
        decreases |objects| - i
      {
        if objects[i].id == id {
          RemovedStepDrop(objects, i, id);
          objects := objects[..i] + objects[i + 1..];
          save := true;
          if i < |objects| {
            i := i + 1;
          }
        } else {
          RemovedStepKeep(objects, i, id);
          i := i + 1;
        }
      }
      assert objects[..i] == objects && objects[i..] == [];
      RemovedShrinks(original, id);
    }

    /** deleteObjectMasks (Ann.py:124-127): the masks are dropped (not modelled) and the
        image is dirty if it has any object. */
    method DeleteObjectMasks()
      modifies this
      ensures save == (old(save) || |objects| > 0)
      ensures objects == old(objects) && fname == old(fname) && imageLabel == old(imageLabel)
    {
      if |objects| > 0 {
        save := true;
      }
    }

    /** deleteAllObjects (Ann.py:129-131). */
    method DeleteAllObjects()
      modifies this
      ensures objects == [] && save
      ensures fname == old(fname) && imageLabel == old(imageLabel)
    {
      objects := [];
      save := true;
    }

    /** getObjectText (Ann.py:133-137): the text of the first object with `id`, or the
        sentinel "__none__". */
    method GetObjectText(id: int) returns (text: Option<string>)
      ensures text == TextOf(objects, id)
    {
      var i := 0;
      while i < |objects|
        invariant 0 <= i <= |objects|
        invariant TextOf(objects[i..], id) == TextOf(objects, id)
      {
        assert objects[i..][1..] == objects[i + 1..];
        if objects[i].id == id {
          return objects[i].text;
        }
        i := i + 1;
      }
      return Some(NoneText);
    }

    /** setObjectText (Ann.py:139-144): the first object with `id` gets the text; the image
        is dirty exactly when there was one. */
    method SetObjectText(id: int, text: Option<string>)
      modifies this
      ensures objects == WithText(old(objects), id, text)
      ensures save == (old(save) || UsesId(old(objects), id))
      ensures fname == old(fname) && imageLabel == old(imageLabel)
    {
      var i := 0;
      while i < |objects|
        invariant 0 <= i <= |objects|
        invariant objects == old(objects) && save == old(save)
        invariant forall j :: 0 <= j < i ==> objects[j].id != id
      {
        if objects[i].id == id {
          FirstWithIdIs(objects, id, i);
          objects := objects[i := objects[i].(text := text)];
          save := true;
          return;
        }
        i := i + 1;
      }
      FirstWithIdIs(objects, id, i);
    }

    /** loadTxtFile (Ann.py:179-209): only an image without objects is loaded, and only from
        an existing file. The object lines are read in order; a short line ends the load and
        a line with a non-integer field raises, and in both cases the objects read before it
        stay. The save flag is left alone. */
    method LoadTxtFile(annotationDir: string, files: map<string, string>) returns (outcome: LoadOutcome)
      modifies this
      ensures old(|objects|) > 0 ==> outcome == NotEmpty && objects == old(objects)
      ensures old(|objects|) == 0 && LabelsPath(annotationDir, fname) !in files ==>
        outcome == NoFile && objects == []
      ensures old(|objects|) == 0 && LabelsPath(annotationDir, fname) in files ==>
        var r := ReadBack(files[LabelsPath(annotationDir, fname)]);
        outcome == Read(r.end) && objects == r.objs
      ensures save == old(save) && fname == old(fname) && imageLabel == old(imageLabel)
    {
      if |objects| > 0 {
        return NotEmpty;
      }
      var path := LabelsPath(annotationDir, fname);
      if path !in files {
        return NoFile;
      }
      var end := AppendObjectLines(ObjectLines(ReadLines(files[path])));
      return Read(end);
    }

    /** The loop of loadTxtFile (Ann.py:189-206) on an image without objects: each object
        line is parsed and appended in turn, up to the first line that does not parse. */
    method AppendObjectLines(lines: seq<string>) returns (end: LoadEnd)
      requires objects == []
      modifies this
      ensures ParseLabels(lines) == Loaded(objects, end)
      ensures save == old(save) && fname == old(fname) && imageLabel == old(imageLabel)
    {
      LoadedSoFarStart(lines);
      var loaded: seq<Obj> := [];
      end := Complete;
      var k := 0;
      while k < |lines|
        invariant 0 <= k <= |lines|
        invariant LoadedSoFar(lines, k, loaded) && end == Complete
        modifies {}
      {
        var parsed := ParseLabelLine(lines[k]);
        if !parsed.Parsed? {
          LoadedSoFarStop(lines, k, loaded);
          end := if parsed.Short? then Aborted else Raised;
          break;
        }
        LoadedSoFarStep(lines, k, loaded, parsed.obj);
        loaded := loaded + [parsed.obj];
        k := k + 1;
      }
      if end == Complete {
        LoadedSoFarEnd(lines, loaded);
      }
      objects := loaded;
    }

    /** toTxtFile (Ann.py:212-232): the files afterwards. The content is built one object
        line at a time; an image without objects writes nothing. Every object needs a text,
        as `None.toUtf8()` raises. */
    method ToTxtFile(annotationDir: string, files: map<string, string>) returns (saved: map<string, string>)
      requires AllHaveText(objects)
      ensures saved == SavedLabels(files, annotationDir, fname, objects)
    {
      if |objects| == 0 {
        return files;
      }
      var content := fname;
      var i := 0;
      LabelLinesSnoc([fname], objects, 0);
      while i < |objects|
        invariant 0 <= i <= |objects| && AllHaveText(objects[..i])
        invariant content == Unlines([fname] + LabelLines(objects[..i]))
      {
        var o := objects[i];
        var line := Fields([o.id, o.x1, o.y1, o.w, o.h]) + o.text.value;
        LabelLinesSnoc([fname], objects, i);
        UnlinesSnoc([fname] + LabelLines(objects[..i]), line);
        content := content + "\n" + line;
        i := i + 1;
      }
      assert objects[..i] == objects;
      return files[LabelsPath(annotationDir, fname) := content];
    }

    /** toTxtBoxFile (Ann.py:235-257): the files afterwards. The image's width and height
        are parameters; an image without objects writes nothing. */
    method ToTxtBoxFile(imageDir: string, annotationDir: string, width: int, height: int,
                        files: map<string, string>) returns (saved: map<string, string>)
      ensures saved == SavedBoxes(files, annotationDir, imageDir + fname, fname, width, height, objects)
    {
      if |objects| == 0 {
        return files;
      }
      var imagePath := imageDir + fname;
      var content := imagePath + "\n" + SizeLine(width, height);
      assert content == Unlines([imagePath, SizeLine(width, height)] + BoxLines(objects[..0]));
      var i := 0;
      while i < |objects|
        invariant 0 <= i <= |objects|
        invariant content == Unlines([imagePath, SizeLine(width, height)] + BoxLines(objects[..i]))
      {
        var o := objects[i];
        var line := Fields([o.x1, o.y1, o.w, o.h]);
        var prefix := [imagePath, SizeLine(width, height)] + BoxLines(objects[..i]);
        UnlinesSnoc(prefix, line);
        BoxLinesSnoc([imagePath, SizeLine(width, height)], objects, i);
        content := content + "\n" + line;
        i := i + 1;
      }
      assert objects[..i] == objects;
      return files[BoxPath(annotationDir, fname) := content];
    }

    /** The files saveObjectMasks writes (Ann.py:146-150), one per object, in order. */
    method MaskFiles(annotationDir: string) returns (paths: seq<string>)
      ensures |paths| == |objects|
      ensures forall i :: 0 <= i < |objects| ==> paths[i] == MaskPath(annotationDir, fname, objects[i].id)
    {
      paths := [];
      var i := 0;
      while i < |objects|
        invariant 0 <= i <= |objects| && |paths| == i
        invariant forall j :: 0 <= j < i ==> paths[j] == MaskPath(annotationDir, fname, objects[j].id)
      {
        paths := paths + [MaskPath(annotationDir, fname, objects[i].id)];
        i := i + 1;
      }
    }
  }

  /** With unique ids, the objects of an image write their masks to distinct files. */
  lemma MaskFilesDistinct(annotationDir: string, fname: string, objs: seq<Obj>, i: int, j: int)
    requires UniqueIds(objs) && 0 <= i < j < |objs|
    ensures MaskPath(annotationDir, fname, objs[i].id) != MaskPath(annotationDir, fname, objs[j].id)
  {
    MaskPathInjective(annotationDir, fname, objs[i].id, objs[j].id);
  }
}
