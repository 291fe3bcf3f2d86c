# Object annotation store of the image annotation tool

This project is a Dafny model of the core of the annotation tool's `Ann.py`. The tool shows
the images of one directory. The user draws objects on the image on screen, gives each
object a text label, and gives the whole image a positive, negative or skip label. The
annotations are saved as text files beside the images. The model covers:

- **`ObjectTable`** (object_table.dfy): an image's objects as a sequence of `Obj` values
  (id, top-left corner, width, height, optional text). It defines what `checkID`, `getID`,
  `getObjectText`, `setObjectText`, `deleteObject` and `deleteObjectsAt` do to that sequence,
  and proves what they promise about ids, order and text.
- **`TextFormat`** (text_format.dfy): the pieces of Python the file formats rest on, in the
  model's own terms. These are `str.split()`, `' '.join`, `readlines()` with the line ends
  dropped, `str(int)` and `int()`.
- **`LabelFiles`** (label_files.dfy): the `<image>.labels.txt` format written by `toTxtFile`
  and read by `loadTxtFile`, and the `<image>.box.txt` format written by `toTxtBoxFile`. It
  also covers the one-line image record read by `parseLine0` and the `<stem>.<id>.png` mask
  file names. Each writer has a reader, and the round trips are proved. A file system is a
  map from path to content.
- **`Images`** (ximage.dfy): the `XImage` class. It has the fields `fname`, `imageLabel`
  (the source's `label`), `objects` and the dirty flag `save`. Each method is proved against
  the functions of `ObjectTable` and `LabelFiles`. The methods keep the source's loops:
  - `deleteObject` keeps its remove-while-iterating loop.
  - `loadTxtFile` keeps its append-until-a-bad-line loop.
  - The writers keep the loops that build the file one line at a time.
- **`Annotations`** (annotation.dfy): the `Annotation` class. It holds the image list and
  the index of the image on screen. It covers navigation, the accessors (with Python's
  negative indices), `setLabel`, and the per-index and current-image mutators. It also
  covers the save operations, which run only when the image is dirty or the save is forced.
- **`Mbr`** (mbr.dfy): `getMBR_numpy`. This is the row-by-row scan of a mask for the
  tightest box around its foreground pixels. It is proved to return exactly that box, and
  (-1, -1, 1, 1) for a missing or empty mask.

Inputs the source gets from its environment are parameters of the model:

- the file system is a `map<string, string>` passed in and returned;
- the working directory is the constructor's `cwd`;
- the image's width and height come from `QPixmap`;
- a mask is a two-dimensional array of RGB pixels.

## Model

| member | source | states |
|---|---|---|
| ObjectTable.FirstWithId | Ann.py:133-137 | the position of the first object with the id, or the length when there is none; no earlier object has it |
| ObjectTable.UsesId | Ann.py:98-101 | true exactly when some object has the id |
| ObjectTable.TextOf | Ann.py:133-137 | the text of the first object with the id, or the "__none__" sentinel when no object has it |
| ObjectTable.WithText | Ann.py:139-144 | same length; only the first object with the id changes, and only in its text |
| ObjectTable.TextAfterSet | Ann.py:139-144 | after setObjectText, getObjectText answers the new text for the id, or the sentinel when no object had the id |
| ObjectTable.TextAfterSetOther | Ann.py:139-144 | setObjectText does not change the answer of getObjectText for any other id |
| ObjectTable.FirstWithIdIs | Ann.py:133-137 | a position that holds the id, with no earlier object holding it, is the first position with the id |
| ObjectTable.UsesIdCons | Ann.py:98-101 | an id is used by a list exactly when the head or the tail uses it |
| ObjectTable.TailUnique | Ann.py:118-122 | the tail of a list with unique ids has unique ids and does not contain the head's id |
| ObjectTable.Removed | Ann.py:118-122 | deleteObject never lengthens the list |
| ObjectTable.RemovedShrinks | Ann.py:118-122 | deleteObject shortens the list exactly when some object has the id |
| ObjectTable.RemovedStep | Ann.py:118-122 | one step of the deleting iteration: a non-matching head is kept; a matching head is dropped and its successor is stepped over |
| ObjectTable.RemovedStepKeep | Ann.py:118-122 | the loop's state after passing an object that does not match |
| ObjectTable.RemovedStepDrop | Ann.py:118-122 | the loop's state after removing a match: the iteration resumes one past the object that moved into the freed position |
| ObjectTable.RemovedAbsent | Ann.py:118-122 | deleting an id that no object has leaves the list unchanged |
| ObjectTable.RemovedUnique | Ann.py:118-122 | with unique ids, deleteObject removes exactly the object with the id and keeps the rest in order |
| ObjectTable.RemovedHeadUnique | Ann.py:118-122 | with unique ids, deleting the head's id leaves exactly the tail |
| ObjectTable.RemovedSkipsNeighbour | Ann.py:118-122 | with a repeated id in adjacent objects, deleteObject removes only the first of them |
| ObjectTable.Keep | Ann.py:362-366 | the reference definition of "delete these ids": an object stays exactly when its id is not among them |
| ObjectTable.RemovedAll | Ann.py:365-366 | deleteObject applied for each id in turn never lengthens the list |
| ObjectTable.RemovedAllSnoc | Ann.py:365-366 | deleting one more id is one more deleteObject on the result so far |
| ObjectTable.KeepUnique | Ann.py:362-366 | filtering out ids keeps the ids unique |
| ObjectTable.KeepKeep | Ann.py:362-366 | filtering one id and then others is filtering all of them at once |
| ObjectTable.RemovedUniqueKeep | Ann.py:118-122 | with unique ids, deleteObject equals the reference filter for that id |
| ObjectTable.KeepAbsent | Ann.py:362-366 | filtering an id no object has changes nothing |
| ObjectTable.RemovedAllUnique | Ann.py:362-366 | with unique ids, deleteObjectsAt removes exactly the objects whose id is listed, keeping the others in order |
| ObjectTable.KeepNothing | Ann.py:362-366 | filtering no ids changes nothing |
| ObjectTable.RemovedKeepsUnique | Ann.py:118-122 | deleteObject keeps the ids unique, and afterwards no object has the deleted id |
| ObjectTable.AddFreshKeepsUnique | Ann.py:113-116 | adding an object with an id from getID keeps the ids unique |
| ObjectTable.TextAfterAdd | Ann.py:113-116 | after adding an object with an unused id, getObjectText answers its text for that id and answers as before for every other id |
| ObjectTable.IdSet | Ann.py:98-101 | the set of ids in use: exactly the ids checkID accepts |
| ObjectTable.IdSetSize | Ann.py:103-108 | a list has no more distinct ids than objects |
| ObjectTable.Below | Ann.py:105 | the ids 0 to n-1, exactly n of them |
| ObjectTable.SubsetBySize | Ann.py:103-108 | a subset at least as large as its superset is equal to it |
| ObjectTable.FullPrefixLeavesCountFree | Ann.py:103-108 | when every id below the object count is used, the count itself is free, so the id getID falls back to is unused |
| TextFormat.WordLen | Ann.py:190 | the length of the leading run of non-whitespace characters |
| TextFormat.WordLenIs | Ann.py:190 | a run of k non-space characters followed by a space or the end has length k |
| TextFormat.Split | Ann.py:190 | `str.split()`: every token is a non-empty word without whitespace |
| TextFormat.SplitWord | Ann.py:190 | a single word splits to itself |
| TextFormat.SplitWordThenSpace | Ann.py:190 | a word followed by a space splits to that word followed by the split of the rest |
| TextFormat.SplitIgnoresNewline | Ann.py:188-190 | the line end that readlines keeps does not change the tokens |
| TextFormat.LabelSplitJoin | Ann.py:202 | a label with single spaces between words, and none at either end, is rebuilt by `' '.join(split())` |
| TextFormat.JoinWordsSplit | Ann.py:202 | `Join` (`' '.join`): joining words with single spaces gives such a label, and splitting it gives the words back |
| TextFormat.LineLen | Ann.py:188 | the length of the text before the first line end |
| TextFormat.LineLenIs | Ann.py:188 | a run of k characters without a line end, followed by one or the end, has length k |
| TextFormat.ReadLines | Ann.py:188 | no line contains a line end |
| TextFormat.UnlinesSnoc | Ann.py:220-228 | writing one more line adds a line end and that line |
| TextFormat.ReadLinesUnlines | Ann.py:188-228 | reading the lines of text written line by line gives the lines back, when the last line is not empty |
| TextFormat.ReadLinesWithHeader | Ann.py:188-228 | a header followed by non-empty body lines, none with a line end, reads back as those lines; the header's last line may be empty only when no body follows |
| TextFormat.DigitValue | Ann.py:197-201 | a digit's value is below ten |
| TextFormat.DigitChar | Ann.py:223-227 | the digit written for a value below ten reads back as that value |
| TextFormat.NatToString | Ann.py:223-227 | `str` of a natural number is a non-empty string of digits |
| TextFormat.IntToString | Ann.py:223-227 | `str(int)` is a single word |
| TextFormat.NatDigitsRoundTrip | Ann.py:197-227 | the digits written for n read back as n |
| TextFormat.IntStringRoundTrip | Ann.py:197-227 | `int(str(i)) == i` for every integer: `ParseInt` reads back what `IntToString` writes |
| TextFormat.IntToStringInjective | Ann.py:149 | different integers are written differently |
| LabelFiles.ParseInts | Ann.py:197-201 | the tokens parse exactly when each one is an integer; then the values match them one by one |
| LabelFiles.SplitFields | Ann.py:223-227 | integers each written followed by a space split into their words, followed by the split of the rest |
| LabelFiles.SplitFieldsStep | Ann.py:223-227 | the split of the fields extends by one word when one more integer is written in front |
| LabelFiles.SplitFieldsCons | Ann.py:223-227 | the first integer written splits off as the first token |
| LabelFiles.FieldsCons | Ann.py:223-227 | the fields are the first integer, a space, then the remaining fields |
| LabelFiles.WordsCons | Ann.py:223-227 | the words of the integers are the first one's word, then the rest's |
| LabelFiles.ParseWords | Ann.py:197-227 | integers written as words parse back to the same integers |
| LabelFiles.NoNewlineInFields | Ann.py:223-227 | the integer fields of a line contain no line end |
| LabelFiles.NoNewlineInWord | Ann.py:190 | a word contains no line end |
| LabelFiles.ParseLabels | Ann.py:189-206 | never more objects than lines; the load completes exactly when every line gave an object |
| LabelFiles.ParseLabelsLines | Ann.py:189-206 | the loaded objects are those of the leading lines that parse, in order; a load that stops early names the first failing line's reason, too few fields or a bad integer |
| LabelFiles.LoadedSoFarStart | Ann.py:189 | before the first object line, nothing has been loaded |
| LabelFiles.LoadedSoFarStep | Ann.py:197-206 | appending the object of a line that parses extends the prefix by that object |
| LabelFiles.LoadedSoFarStop | Ann.py:192-201 | a line with too few fields ends the load (aborted); a bad integer raises; either way the objects read so far stay |
| LabelFiles.LoadedSoFarEnd | Ann.py:189-206 | when every line parsed, the load is complete with all of their objects |
| LabelFiles.LabelLinesSnoc | Ann.py:220-228 | the lines written after one more object are the lines so far followed by that object's line |
| LabelFiles.LabelLineRoundTrip | Ann.py:190-228 | `LabelLine`, an object line written by toTxtFile parses back to the same object, and holds no line end |
| LabelFiles.LabelLineNoNewline | Ann.py:223-228 | an object line is non-empty and holds no line end |
| LabelFiles.LabelsTextLines | Ann.py:188-228 | the lines read from a .labels.txt file (`LabelsText`) are its name line followed by one line per object |
| LabelFiles.ParseLinesRoundTrip | Ann.py:189-228 | the object lines of a saved image load back to the same objects, completely |
| LabelFiles.LabelsRoundTrip | Ann.py:188-228 | loadTxtFile reads back exactly the objects toTxtFile wrote, when every text is a label and the file name has no line end |
| LabelFiles.StaleLabelsReload | Ann.py:213 | after the objects are saved, deleting them all and saving again writes nothing, so the old objects load back |
| LabelFiles.LoadedAreSaveable | Ann.py:190-205 | every loaded object's text is a label, so the loaded objects survive a save and a reload unchanged |
| LabelFiles.ParseLabelLine | Ann.py:190-205 | a line with fewer than six tokens is too short; otherwise it is a bad integer exactly when one of the first five tokens is not an integer, and else those five tokens are the object's id, x1, y1, w and h |
| LabelFiles.SavedLabels | Ann.py:212-228 | toTxtFile's files: unchanged without objects; else the .labels.txt path holds the name line and one `LabelLine` per object, and every other path keeps its content |
| LabelFiles.SavePathsInjective | Ann.py:215-238 | two images share a .labels.txt path, or a .box.txt path, exactly when their names are equal (`LabelsPath`, `BoxPath`) |
| LabelFiles.LabelsAndBoxPathsDiffer | Ann.py:215-238 | a .labels.txt path is never a .box.txt path, so the two writers never overwrite each other's files |
| LabelFiles.BlankTextIsShort | Ann.py:190-228 | an object whose text has no words is written as five numbers, which loadTxtFile reads as a line with too few fields |
| LabelFiles.StopsAtShort | Ann.py:189-206 | when the lines before position i parse to objects and line i is too short, the load aborts with exactly those earlier objects |
| LabelFiles.BlankTextAborts | Ann.py:189-228 | when object i has a text without words, the load aborts at its line: the earlier objects come back, object i and every later one are lost |
| LabelFiles.LabelLineOneLine | Ann.py:223-228 | an object line whose text has no line end is a non-empty single line |
| LabelFiles.EmptyTextLosesRest | Ann.py:188-228 | a saved file with an object whose text is empty reads back as only the objects before it, with the load aborted |
| LabelFiles.ReadBoxLines | Ann.py:249-254 | the box lines read exactly when each one holds four integers; then the boxes match them one by one |
| LabelFiles.BoxLinesSnoc | Ann.py:249-254 | the box lines after one more object are the lines so far followed by that object's line |
| LabelFiles.BoxLineRoundTrip | Ann.py:250-254 | a box line (`BoxLine`) reads back as the object's x1, y1, w, h, and holds no line end |
| LabelFiles.BoxLineNoNewline | Ann.py:250-254 | a box line is non-empty and holds no line end |
| LabelFiles.BoxLinesRoundTrip | Ann.py:249-254 | the box lines of the objects read back as their boxes, in order |
| LabelFiles.SizeLineRoundTrip | Ann.py:247-248 | the size line (`SizeLine`) reads back as the width and height |
| LabelFiles.SizeLineNoNewline | Ann.py:247-248 | the size line is non-empty and holds no line end |
| LabelFiles.BoxFileRoundTrip | Ann.py:243-254 | a .box.txt file reads back as its image path, the image size and the objects' boxes |
| LabelFiles.BoxTextLines | Ann.py:243-254 | the lines read from a .box.txt file (`BoxText`) are the image path, the size line and one box line per object |
| LabelFiles.SavedBoxes | Ann.py:235-254 | toTxtBoxFile's files: unchanged without objects; else the .box.txt path holds the image path, the `SizeLine` and one `BoxLine` per object, and every other path keeps its content |
| LabelFiles.ReadBoxFileOf | Ann.py:243-254 | content whose lines are a path, a size line of two integers and readable box lines reads as that path, size and boxes |
| LabelFiles.Objects0 | Ann.py:499-502 | the objects of a parseLine0 record parse exactly when each object's four fields are integers, and one object is read per count |
| LabelFiles.ParseLine0 | Ann.py:494-503 | the file name is token 2, the label parses from token 0, object k takes its box from tokens 4k+3 to 4k+6 with id k and no text, and the ids are unique |
| LabelFiles.Box0At | Ann.py:501 | object k is missing exactly when tokens 4k+3 to 4k+6 are absent or not all integers; otherwise it has id k, no text, and those four tokens as x1, y1, w and h |
| LabelFiles.Flat0 | Ann.py:501 | four tokens per object |
| LabelFiles.Flat0At | Ann.py:501 | object k's four tokens sit at positions 4k to 4k+3 |
| LabelFiles.Line0Tokens | Ann.py:495 | the tokens of a record's line are its label, its object count, its file name and four numbers per object |
| LabelFiles.Box0AtLine0 | Ann.py:501 | object k of a record is read back from its four tokens, with id k and no text |
| LabelFiles.Objects0Of | Ann.py:499-502 | the loop of parseLine0 collects exactly the objects read at each position |
| LabelFiles.Line0RoundTrip | Ann.py:494-503 | parseLine0 reads back every record whose objects carry the ids 0, 1, ... and no text |
| LabelFiles.LastDot | Ann.py:148 | the position of the last '.', or -1 |
| LabelFiles.Stem | Ann.py:148 | `os.path.splitext(name)[0]`: a prefix of the name, and when shorter it stops at the last '.' |
| LabelFiles.MaskPathInjective | Ann.py:148-149 | two ids of one image share a mask file name (`MaskPath`) exactly when they are equal |
| Images.XImage.constructor | Ann.py:86-92 | a new image has its name and label, no objects, and nothing to save |
| Images.XImage.CheckID | Ann.py:98-101 | true exactly when some object has the id |
| Images.XImage.GetID | Ann.py:103-108 | the smallest non-negative id that no object uses; it is at most the object count |
| Images.XImage.AddObject | Ann.py:113-116 | the object goes at the end and the image is dirty |
| Images.XImage.DeleteObject | Ann.py:118-122 | the objects become `Removed` of the old ones; the image becomes dirty exactly when some object had the id |
| Images.XImage.DeleteObjectMasks | Ann.py:124-127 | the objects stay; the image becomes dirty exactly when it has objects |
| Images.XImage.DeleteAllObjects | Ann.py:129-131 | no objects and dirty |
| Images.XImage.GetObjectText | Ann.py:133-137 | the text of the first object with the id, or the sentinel |
| Images.XImage.SetObjectText | Ann.py:139-144 | the first object with the id gets the text; dirty exactly when there was one |
| Images.XImage.LoadTxtFile | Ann.py:179-209 | nothing happens when the image has objects or the file is missing; otherwise the objects are what ParseLabels reads from the object lines, with its stop reason; the dirty flag is untouched |
| Images.XImage.AppendObjectLines | Ann.py:189-206 | the objects appended, and how the loop ends, are exactly ParseLabels of the lines |
| Images.XImage.ToTxtFile | Ann.py:212-232 | the files afterwards: unchanged without objects, else the .labels.txt path holds the name line and one line per object |
| Images.XImage.ToTxtBoxFile | Ann.py:235-257 | the files afterwards: unchanged without objects, else the .box.txt path holds the image path, the size line and one box line per object |
| Images.XImage.MaskFiles | Ann.py:146-150 | one mask file name per object, in order, built from the stem and the object's id |
| Images.MaskFilesDistinct | Ann.py:146-150 | with unique ids, no two objects write the same mask file |
| Annotations.Slot | Ann.py:298-313 | Python's list index: a non-negative index is itself, a negative one counts back from the end |
| Annotations.BulkLabel | Ann.py:335-340 | -2 gives negative, 10 skip and 2 positive, and nothing else gives those labels |
| Annotations.Annotation.constructor | Ann.py:267-276 | no images, index 0, no image directory, and the annotation directory `ann/` below the working directory |
| Annotations.Annotation.Prev | Ann.py:280-283 | the previous index, never below 0; a valid index when there are images |
| Annotations.Annotation.Next | Ann.py:284-287 | the next index, never past the last image; -1 when there are none |
| Annotations.Annotation.Goto | Ann.py:292-294 | moves exactly when the index names an image, answers the index, and keeps the state valid |
| Annotations.Annotation.Image | Ann.py:298-300 | the image at the index (Python indexing), or None exactly when the index is past the end |
| Annotations.Annotation.CurImage | Ann.py:301-302 | the image on screen, or None exactly when there are no images |
| Annotations.Annotation.ImageName | Ann.py:303-305 | the image's file name, or "" past the end |
| Annotations.Annotation.ImagePath | Ann.py:308-310 | the image directory followed by the file name, or "" past the end |
| Annotations.Annotation.NumObjects | Ann.py:311-313 | the image's object count, or 0 past the end |
| Annotations.Annotation.GetID | Ann.py:289-290 | the smallest free id of the image on screen |
| Annotations.Annotation.SetLabel | Ann.py:332-340 | -1, 0 and 1 label the image on screen; -2, 10 and 2 label every image with the mapped label; any other code changes nothing; objects and flags stay |
| Annotations.Annotation.AddObjectTo | Ann.py:343-345 | the object is added to the image at the index and only there; nothing happens past the end |
| Annotations.Annotation.DeleteAllObjectsAt | Ann.py:352-353 | the image at the index loses all objects and becomes dirty; the others are unchanged |
| Annotations.Annotation.DeleteObjectMasksAt | Ann.py:357-358 | the image at the index becomes dirty when it has objects; the others are unchanged |
| Annotations.Annotation.DeleteObjectsAt | Ann.py:362-366 | with the corrected guard: deleteObject for each id in turn on the image at the index; dirty exactly when something was removed; the others are unchanged |
| Annotations.Annotation.DeleteObjects | Ann.py:360-366 | with ids and images, the image on screen loses exactly the objects deleteObject removes for each id in turn, and becomes dirty exactly when something was removed; every other image, and every name and label, stays |
| Annotations.Annotation.ToggleSave | Ann.py:416-417 | the dirty flag of the image on screen becomes the given value; its objects, name and label stay |
| Annotations.Annotation.LoadImageAnnAsTxt | Ann.py:419-420 | on the image on screen: objects already there stay (NotEmpty); with no .labels.txt file it stays empty (NoFile); otherwise its objects are what the file reads back as, with the load's stop reason; the dirty flag, name and label stay |
| Annotations.Annotation.SaveImageAnnAsTxt | Ann.py:399-403 | writes the .labels.txt file exactly when the image is dirty or the save is forced |
| Annotations.Annotation.SaveImageAnnAsBoxTxt | Ann.py:405-409 | writes the .box.txt file exactly when the image is dirty or the save is forced |
| Annotations.Annotation.SaveCurrentObjectMasks | Ann.py:395-397 | the mask file names of the image on screen: none unless it is dirty or the save is forced, else one name per object, in order, built from the stem and the object's id |
| Annotations.DeleteGuardAsWritten | Ann.py:363 | the guard as written lets a call through only with ids and an index at most numImages(), and it does let through the index numImages() |
| Annotations.DeleteGuardsDiffer | Ann.py:363 | the guard as written and the corrected guard disagree exactly at index == numImages() with ids to delete |
| Annotations.DeleteGuardLetsEndThrough | Ann.py:363 | the guard as written does not stop at the index one past the last image |
| Annotations.DeleteGuardCorrected | Ann.py:363-366 | when the corrected guard lets a call through, the index names an image and there are ids |
| Mbr.GetMbr | Ann.py:528-544 | (-1, -1, 1, 1) for a missing mask or one without foreground; otherwise the tightest box holding every foreground pixel, each edge touching one |
| Mbr.SinglePixelBox | Ann.py:528-544 | a mask with one foreground pixel has the 1-by-1 box at that pixel |
| Mbr.TightBoxUnique | Ann.py:528-544 | a mask has at most one tightest box, so GetMbr's answer is determined by the mask |

## Left out

- `Object`'s mask and region (Ann.py:35-83) are left out: a mask is Qt image data. `deleteMask`, `loadObjectMask(s)`, `loadObjectImage(s)` and `getObjectRegion` are not modelled. `deleteObjectMasks` is modelled only through its effect on the dirty flag. `deleteObjectsAt` loads the image's masks before deleting; that call is not modelled.
- Images.XImage.MaskFiles: it gives the names `saveObjectMasks` writes to, not the PNG contents. The `os.makedirs` call in `Annotation.saveObjectMasks` is not modelled.
- `loadDir` (Ann.py:368-392), `setAnnotationDir` and `saveALLImageAnnAsBoxTxt` are not modelled. They list a directory, create directories and ask Qt for image sizes. The order of `loadDir`'s case-insensitive name sort is not modelled either.
- `loadAnnotation`, `saveAnnotationList(As)`, `getAnnotationListFile` and `parseLine` (Ann.py:439-516) are not modelled. The first three are file I/O around stubs. `parseLine` (Ann.py:505-516) passes nine positional arguments to the eight-parameter `Object` constructor (Ann.py:36, Ann.py:512), so it raises TypeError whenever the object count is positive; it is not modelled. `parseLine0` is modelled.
- `setClassName`, `toString`, `mask` and the commented-out code are left out. They are stubs or unused.
- Images.XImage.ToTxtFile: requires every object to have a text. For an object without one, `None.toUtf8()` raises AttributeError; that path is not modelled.
- Images.XImage.AppendObjectLines: collects the objects in a local list and stores it in `objects` when the loop ends, where the source appends to `self.objects` in each iteration. The state when the method returns is the same; the list part-way through a load is not modelled.
- Images.XImage.LoadTxtFile: the `unicode(text, 'utf8')` decoding is the identity on the model's characters. A file that is not valid UTF-8 is not modelled. Reading a file that exists but cannot be opened is not modelled.
- LabelFiles.LabelsRoundTrip: requires every text to be a label (single spaces between non-empty words). `loadTxtFile` normalises any other whitespace, so other texts do not come back unchanged. `LoadedAreSaveable` shows that every loaded text is already a label. The worst case is a text without words (empty, or only whitespace): its line is written as five numbers, and `loadTxtFile` aborts there, losing that object and every later one (`BlankTextAborts`, `EmptyTextLosesRest`).
- LabelFiles.ParseLine0: fails as a whole (None) where the source raises, on too few tokens or a non-integer. It does not say which exception.
- Annotations.Annotation.SetLabel: requires images for the codes -1, 0 and 1. `curImage()` is None without images, and setting its label raises.
- Annotations.Annotation.Image: an index below `-numImages()` raises IndexError in the source. It is excluded by the precondition, here and in the other accessors.
- Annotations.Annotation.DeleteObjectsAt: uses the corrected guard `index >= numImages()`. The guard as written is in Findings.
- Annotations.Annotation.DeleteObjects: with no images and ids to delete, the guard as written lets index 0 through and `self.images[0]` raises IndexError; the model does nothing there, as the corrected guard says.
- Annotations.Annotation.GetID: requires an image; with none, `curImage()` is None and `None.getID()` raises AttributeError (Ann.py:290). That raise is not modelled.
- Annotations.Annotation.ToggleSave: requires an image; with none, `self.images[self.index]` raises IndexError (Ann.py:417). That raise is not modelled.
- Annotations.Annotation.LoadImageAnnAsTxt: requires an image; with none, `self.images[self.index]` raises IndexError (Ann.py:420). That raise is not modelled.
- Annotations.Annotation.SaveImageAnnAsTxt: requires an image; with none, `self.images[self.index]` raises IndexError (Ann.py:400). That raise is not modelled.
- Annotations.Annotation.SaveImageAnnAsBoxTxt: requires an image; with none, `self.images[self.index]` raises IndexError (Ann.py:406). That raise is not modelled.
- Annotations.Annotation.SaveCurrentObjectMasks: gives the mask file names of every object of the image on screen. `Object.save` (Ann.py:77-82) writes a mask only when it is loaded and its `saveMask` flag is set, and then clears the flag; masks and that flag are not modelled. It requires an image; with none, `self.images[self.index]` raises IndexError (Ann.py:396), which is not modelled.
- Annotations.Annotation.SaveImageAnnAsBoxTxt: the image's width and height are parameters instead of `QPixmap(imagePath)`.
- Mbr.GetMbr: takes the mask as an array of RGB triples indexed by row and column. A pixel is foreground when one of its components is above zero, as in the source. The floating-point infinities the scan starts from are replaced by the mask's width and height and by -1. These stand-ins are never returned.
- Console messages (`print`) and the closing of files are left out.

## Findings

| source | as written | input that shows it | evidently intended | confidence | as-written member | corrected member |
|---|---|---|---|---|---|---|
| Ann.py:363 | `deleteObjectsAt` returns early only when `index > self.numImages()` | `index == numImages()` with a non-empty `ids`: the guard lets the call through, and `self.images[index]` raises IndexError | `index >= self.numImages()`, so that an index past the last image does nothing, as in the other `...At` methods | medium; not executed | Annotations.DeleteGuardLetsEndThrough | Annotations.DeleteGuardCorrected |
