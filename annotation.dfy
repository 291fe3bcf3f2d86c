/** The Annotation class (Ann.py:267-430): the list of images of one directory, the index
    of the image on screen, the directories the annotation files go to, and the operations
    the editor calls on the current image or on an image chosen by index. */
module Annotations {
  import opened Wrappers
  import opened ObjectTable
  import opened LabelFiles
  import opened Images

  /** Whole-image labels (Ann.py:10). */
  const LPos: int := 1
  const LNeg: int := -1
  const LSkip: int := 0

  function Max(a: int, b: int): int {
    if a < b then b else a
  }

  function Min(a: int, b: int): int {
    if a < b then a else b
  }

  /** Python's `xs[i]` on a list of length n: a negative index counts from the end. Only
      -n <= i < n is accepted; anything else raises IndexError. */
  function Slot(i: int, n: nat): (k: nat)
    requires 0 <= i + n && i < n
    ensures k < n
    ensures i >= 0 ==> k == i
    ensures i < 0 ==> k + (-i) == n
  {
    if i < 0 then n + i else i
  }

  /** The label every image gets from setLabel's bulk codes (Ann.py:335-340): -2 marks all
      negative, 10 all skipped and 2 all positive. */
  function BulkLabel(code: int): (lab: int)
    requires code == -2 || code == 10 || code == 2
    ensures lab == LNeg || lab == LSkip || lab == LPos
    ensures (lab == LNeg <==> code == -2) && (lab == LSkip <==> code == 10) && (lab == LPos <==> code == 2)
  {
    if code == -2 then -1 else if code == 10 then 0 else 1
  }

  class Annotation {
    var images: seq<XImage>
    var index: int
    var imageDir: Option<string>
    var annotationDir: string
    var dirPath: string

    /** The state the editor keeps: the index is 0 or names an image, every image is a
        separate object, and once there are images their directory is known. */
    predicate Valid()
      reads this
    {
      && 0 <= index
      && (|images| == 0 ==> index == 0)
      && (|images| > 0 ==> index < |images| && imageDir.Some?)
      && (forall i, j :: 0 <= i < j < |images| ==> images[i] != images[j])
    }

    /** Annotation() (Ann.py:267-276) in the working directory `cwd`: no images, the first
        index, and the annotation directory `ann/` below `cwd`. The optional list file
        argument only calls a stub. */
    constructor (cwd: string)
      ensures Valid()
      ensures images == [] && index == 0 && imageDir == None
      ensures dirPath == cwd + "/" && annotationDir == cwd + "/" + "ann/"
    {
      images := [];
      index := 0;
      imageDir := None;
      dirPath := cwd + "/";
      annotationDir := cwd + "/" + "ann/";
    }

    /** prev (Ann.py:280-283): one image back, but not before the first. */
    function Prev(): (ind: int)
      reads this
      ensures ind == Max(index - 1, 0)
      ensures Valid() && |images| > 0 ==> 0 <= ind < |images|
    {
      var ind := index - 1;
      if ind < 0 then 0 else ind
    }

    /** next (Ann.py:284-287): one image on, but not past the last; -1 when there are no
        images, which goto then ignores. */
    function Next(): (ind: int)
      reads this
      ensures ind == Min(index + 1, |images| - 1)
      ensures Valid() && |images| > 0 ==> 0 <= ind < |images|
      ensures Valid() && |images| == 0 ==> ind == -1
    {
      var ind := index + 1;
      if ind >= |images| then |images| - 1 else ind
    }

    /** goto (Ann.py:292-294): move to `i` when it names an image; answer the index. */
    method Goto(i: int) returns (r: int)
      requires Valid()
      modifies this
      ensures Valid()
      ensures index == (if 0 <= i < |images| then i else old(index))
      ensures r == index
      ensures images == old(images) && imageDir == old(imageDir) && annotationDir == old(annotationDir)
      ensures dirPath == old(dirPath)
    {
      if i >= 0 && i < |images| {
        index := i;
      }
      return index;
    }

    /** image (Ann.py:298-300): the image at `i`, None past the end. */
    function Image(i: int): (img: Option<XImage>)
      reads this
      requires 0 <= i + |images|
      ensures i >= |images| <==> img == None
      ensures i < |images| ==> img == Some(images[Slot(i, |images|)])
    {
      if i < |images| then Some(images[Slot(i, |images|)]) else None
    }

    /** curImage (Ann.py:301-302): the image on screen, None when there are none. */
    function CurImage(): (img: Option<XImage>)
      reads this
      requires Valid()
      ensures img.Some? <==> |images| > 0
      ensures img.Some? ==> img.value == images[index]
    {
      Image(index)
    }

    /** imageName (Ann.py:303-305): the file name of the image at `i`, "" past the end. */
    function ImageName(i: int): (name: string)
      reads this, images
      requires 0 <= i + |images|
      ensures i >= |images| ==> name == ""
      ensures i < |images| ==> name == images[Slot(i, |images|)].fname
    {
      if i < |images| then images[Slot(i, |images|)].fname else ""
    }

    /** imagePath (Ann.py:308-310): the image directory followed by the file name, "" past
        the end. */
    function ImagePath(i: int): (path: string)
      reads this, images
      requires Valid() && 0 <= i + |images|
      ensures i >= |images| ==> path == ""
      ensures i < |images| ==> path == imageDir.value + images[Slot(i, |images|)].fname
    {
      if i < |images| then imageDir.value + images[Slot(i, |images|)].fname else ""
    }

    /** numObjects (Ann.py:311-313): the object count of the image at `i`, 0 past the end. */
    function NumObjects(i: int): (n: nat)
      reads this, images
      requires 0 <= i + |images|
      ensures i >= |images| ==> n == 0
      ensures i < |images| ==> n == |images[Slot(i, |images|)].objects|
    {
      if i < |images| then |images[Slot(i, |images|)].objects| else 0
    }

    /** getID (Ann.py:289-290): the smallest free id of the image on screen. */
    method GetID() returns (id: int)
      requires Valid() && |images| > 0
      ensures 0 <= id <= |images[index].objects|
      ensures !UsesId(images[index].objects, id)
      ensures forall j :: 0 <= j < id ==> UsesId(images[index].objects, j)
    {
      id := images[index].GetID();
    }

    /** setLabel (Ann.py:332-340): -1, 0 and 1 label the image on screen; -2, 10 and 2 give
        every image the matching label; any other value changes nothing. */
    method SetLabel(lab: int)
      requires Valid()
      requires lab == -1 || lab == 0 || lab == 1 ==> |images| > 0
      modifies images
      ensures lab == -2 || lab == 10 || lab == 2 ==>
        forall i :: 0 <= i < |images| ==> images[i].imageLabel == BulkLabel(lab)
      ensures lab == -1 || lab == 0 || lab == 1 ==> images[index].imageLabel == lab
      ensures !(lab == -2 || lab == 10 || lab == 2) ==>
        forall i :: 0 <= i < |images| && i != index ==> images[i].imageLabel == old(images[i].imageLabel)
      ensures !(lab == -2 || lab == 10 || lab == 2 || lab == -1 || lab == 0 || lab == 1) ==>
        forall i :: 0 <= i < |images| ==> images[i].imageLabel == old(images[i].imageLabel)
      ensures forall i :: 0 <= i < |images| ==>
        images[i].objects == old(images[i].objects) && images[i].save == old(images[i].save) &&
        images[i].fname == old(images[i].fname)
    {
      if lab == -1 || lab == 0 || lab == 1 {
        images[index].imageLabel := lab;
      } else if lab == -2 || lab == 10 || lab == 2 {
        var current := lab;
        var i := 0;
        while i < |images|
          invariant 0 <= i <= |images|
          invariant current == if i == 0 then lab else BulkLabel(lab)
          invariant forall j :: 0 <= j < i ==> images[j].imageLabel == BulkLabel(lab)
          invariant forall j :: i <= j < |images| ==> images[j].imageLabel == old(images[j].imageLabel)
          invariant forall j :: 0 <= j < |images| ==>
            images[j].objects == old(images[j].objects) && images[j].save == old(images[j].save) &&
            images[j].fname == old(images[j].fname)
        {
          if current == -2 {
            current := -1;
          } else if current == 10 {
            current := 0;
          } else if current == 2 {
            current := 1;
          }
          images[i].imageLabel := current;
          i := i + 1;
        }
      }
    }

    /** addObjectTo (Ann.py:343-345): addObject on the image at `i`; nothing past the end. */
    method AddObjectTo(i: int, x1: int, y1: int, id: int, w: int, h: int, text: Option<string>)
      requires Valid() && 0 <= i + |images|
      modifies images
      ensures i < |images| ==> var k := Slot(i, |images|);
        images[k].objects == old(images[k].objects) + [Obj(id, x1, y1, w, h, text)] && images[k].save
      ensures forall j :: 0 <= j < |images| && (i >= |images| || j != Slot(i, |images|)) ==>
        images[j].objects == old(images[j].objects) && images[j].save == old(images[j].save)
      ensures forall j :: 0 <= j < |images| ==>
        images[j].fname == old(images[j].fname) && images[j].imageLabel == old(images[j].imageLabel)
    {
      if i < |images| {
        images[Slot(i, |images|)].AddObject(x1, y1, id, w, h, text);
      }
    }

    /** deleteAllObjectsAt (Ann.py:352-353): deleteAllObjects on the image at `i`. */
    method DeleteAllObjectsAt(i: int)
      requires Valid() && 0 <= i + |images|
      modifies images
      ensures i < |images| ==> var k := Slot(i, |images|); images[k].objects == [] && images[k].save
      ensures forall j :: 0 <= j < |images| && (i >= |images| || j != Slot(i, |images|)) ==>
        images[j].objects == old(images[j].objects) && images[j].save == old(images[j].save)
      ensures forall j :: 0 <= j < |images| ==>
        images[j].fname == old(images[j].fname) && images[j].imageLabel == old(images[j].imageLabel)
    {
      if i < |images| {
        images[Slot(i, |images|)].DeleteAllObjects();
      }
    }

    /** deleteObjectMasksAt (Ann.py:357-358): deleteObjectMasks on the image at `i`: the
        image becomes dirty if it has objects. */
    method DeleteObjectMasksAt(i: int)
      requires Valid() && 0 <= i + |images|
      modifies images
      ensures i < |images| ==> var k := Slot(i, |images|);
        images[k].save == (old(images[k].save) || |images[k].objects| > 0)
      ensures forall j :: 0 <= j < |images| && (i >= |images| || j != Slot(i, |images|)) ==>
        images[j].save == old(images[j].save)
      ensures forall j :: 0 <= j < |images| ==>
        images[j].objects == old(images[j].objects) &&
        images[j].fname == old(images[j].fname) && images[j].imageLabel == old(images[j].imageLabel)
    {
      if i < |images| {
        images[Slot(i, |images|)].DeleteObjectMasks();
      }
    }

    /** deleteObjectsAt (Ann.py:362-366) with the guard the code evidently intends
        (`index >= numImages()`, see DeleteGuardAsWritten): deleteObject for each id in
        turn on the image at `i`. The image becomes dirty when some object went away. */
    method DeleteObjectsAt(i: int, ids: seq<int>)
      requires Valid()
      requires |ids| > 0 && i < |images| ==> 0 <= i + |images|
      modifies images
      ensures !DeleteGuardCorrected(i, |images|, ids) ==> var k := Slot(i, |images|);
        images[k].objects == RemovedAll(old(images[k].objects), ids) &&
        images[k].save == (old(images[k].save) || |images[k].objects| < |old(images[k].objects)|)
      ensures forall j :: 0 <= j < |images| && (DeleteGuardCorrected(i, |images|, ids) || j != Slot(i, |images|)) ==>
        images[j].objects == old(images[j].objects) && images[j].save == old(images[j].save)
      ensures forall j :: 0 <= j < |images| ==>
        images[j].fname == old(images[j].fname) && images[j].imageLabel == old(images[j].imageLabel)
    {
      if DeleteGuardCorrected(i, |images|, ids) {
        return;
      }
      var img := images[Slot(i, |images|)];
      var n := 0;
      while n < |ids|
        invariant 0 <= n <= |ids|
        invariant img.objects == RemovedAll(old(img.objects), ids[..n])
        invariant img.save == (old(img.save) || |img.objects| < |old(img.objects)|)
        invariant |img.objects| <= |old(img.objects)|
        invariant img.fname == old(img.fname) && img.imageLabel == old(img.imageLabel)
        modifies img
      {
        RemovedAllSnoc(old(img.objects), ids[..n], ids[n]);
        assert ids[..n + 1] == ids[..n] + [ids[n]];
        RemovedShrinks(img.objects, ids[n]);
        img.DeleteObject(ids[n]);
        n := n + 1;
      }
      assert ids[..n] == ids;
    }

    /** deleteObjects (Ann.py:360-361): deleteObjectsAt on the image on screen. */
    method DeleteObjects(ids: seq<int>)
      requires Valid()
      modifies images
      ensures |images| > 0 && |ids| > 0 ==>
        images[index].objects == RemovedAll(old(images[index].objects), ids) &&
        images[index].save == (old(images[index].save) || |images[index].objects| < |old(images[index].objects)|)
      ensures forall j :: 0 <= j < |images| && (|ids| == 0 || j != index) ==>
        images[j].objects == old(images[j].objects) && images[j].save == old(images[j].save)
      ensures forall j :: 0 <= j < |images| ==>
        images[j].fname == old(images[j].fname) && images[j].imageLabel == old(images[j].imageLabel)
    {
      DeleteObjectsAt(index, ids);
    }

    /** toggleSave (Ann.py:416-417): set the dirty flag of the image on screen. */
    method ToggleSave(flag: bool)
      requires Valid() && |images| > 0
      modifies images[index]
      ensures images[index].save == flag
      ensures images[index].objects == old(images[index].objects)
      ensures images[index].fname == old(images[index].fname) &&
        images[index].imageLabel == old(images[index].imageLabel)
    {
      images[index].save := flag;
    }

    /** loadImageAnnAsTxt (Ann.py:419-420): loadTxtFile on the image on screen. */
    method LoadImageAnnAsTxt(files: map<string, string>) returns (outcome: LoadOutcome)
      requires Valid() && |images| > 0
      modifies images[index]
      ensures old(|images[index].objects|) > 0 ==>
        outcome == NotEmpty && images[index].objects == old(images[index].objects)
      ensures var path := LabelsPath(annotationDir, old(images[index].fname));
        old(|images[index].objects|) == 0 && path !in files ==>
        outcome == NoFile && images[index].objects == []
      ensures var path := LabelsPath(annotationDir, old(images[index].fname));
        old(|images[index].objects|) == 0 && path in files ==>
        images[index].objects == ReadBack(files[path]).objs && outcome == Read(ReadBack(files[path]).end)
      ensures images[index].save == old(images[index].save) && images[index].fname == old(images[index].fname) &&
        images[index].imageLabel == old(images[index].imageLabel)
    {
      outcome := images[index].LoadTxtFile(annotationDir, files);
    }

    /** saveImageAnnAsTxt (Ann.py:399-403): toTxtFile on the image on screen, only when it
        is dirty or the save is forced. The dirty flag stays as it was. */
    method SaveImageAnnAsTxt(forceSave: bool, files: map<string, string>) returns (saved: map<string, string>)
      requires Valid() && |images| > 0
      requires images[index].save || forceSave ==> AllHaveText(images[index].objects)
      ensures images[index].save || forceSave ==>
        saved == SavedLabels(files, annotationDir, images[index].fname, images[index].objects)
      ensures !(images[index].save || forceSave) ==> saved == files
    {
      if images[index].save || forceSave {
        saved := images[index].ToTxtFile(annotationDir, files);
      } else {
        saved := files;
      }
    }

    /** saveImageAnnAsBoxTxt (Ann.py:405-409): toTxtBoxFile on the image on screen, only
        when it is dirty or the save is forced; `width` and `height` are the image's size. */
    method SaveImageAnnAsBoxTxt(forceSave: bool, width: int, height: int, files: map<string, string>)
      returns (saved: map<string, string>)
      requires Valid() && |images| > 0
      ensures images[index].save || forceSave ==>
        saved == SavedBoxes(files, annotationDir, imageDir.value + images[index].fname, images[index].fname,
                            width, height, images[index].objects)
      ensures !(images[index].save || forceSave) ==> saved == files
    {
      if images[index].save || forceSave {
        saved := images[index].ToTxtBoxFile(imageDir.value, annotationDir, width, height, files);
      } else {
        saved := files;
      }
    }

    /** saveCurrentObjectMasks (Ann.py:395-397) through saveObjectMasks (Ann.py:422-428): the
        mask files of the image on screen, only when it is dirty or the save is forced. */
    method SaveCurrentObjectMasks(forceSave: bool) returns (paths: seq<string>)
      requires Valid() && |images| > 0
      ensures !(images[index].save || forceSave) ==> paths == []
      ensures images[index].save || forceSave ==> |paths| == |images[index].objects|
      ensures images[index].save || forceSave ==> forall j :: 0 <= j < |paths| ==>
        paths[j] == MaskPath(annotationDir, images[index].fname, images[index].objects[j].id)
    {
      paths := [];
      if images[index].save || forceSave {
        if |images[index].objects| > 0 {
          paths := images[index].MaskFiles(annotationDir);
        }
      }
    }
  }

  /** The guard of deleteObjectsAt as written (Ann.py:363): `index > numImages()`. */
  function DeleteGuardAsWritten(i: int, n: nat, ids: seq<int>): (stop: bool)
    ensures !stop ==> i <= n && |ids| > 0
    ensures i == n && |ids| > 0 ==> !stop
  {
    i > n || |ids| == 0
  }

  /** The guard as written lets the index one past the last image through, where
      `self.images[index]` raises IndexError. */
  lemma DeleteGuardLetsEndThrough(n: nat)
    ensures !DeleteGuardAsWritten(n, n, [0])
  {
  }

  /** The two guards part exactly at the index one past the last image, with ids to delete. */
  lemma DeleteGuardsDiffer(i: int, n: nat, ids: seq<int>)
    ensures DeleteGuardAsWritten(i, n, ids) != DeleteGuardCorrected(i, n, ids) <==> i == n && |ids| > 0
  {
  }

  /** The guard the code evidently intends: `index >= numImages()`. */
  function DeleteGuardCorrected(i: int, n: nat, ids: seq<int>): (stop: bool)
    ensures !stop ==> i < n && |ids| > 0
  {
    i >= n || |ids| == 0
  }
}
