/** The object list of one image as a value: the specifications of the XImage queries and
    updates of Ann.py:94-144, and what they promise about ids, order and text. */
module ObjectTable {
  import opened Wrappers

  /** One object selected by the user (Ann.py:35-45): its id, the top-left corner and size
      of its bounding box, and its label. `text == None` is Python's None. The pixel mask,
      the preview region and the per-object saveMask flag are not part of this model. */
  datatype Obj = Obj(id: int, x1: int, y1: int, w: int, h: int, text: Option<string>)

  /** The answer of getObjectText for an id no object has. */
  const NoneText: string := "__none__"

  /** The invariant the editor relies on: no two objects of an image share an id. */
  predicate UniqueIds(objs: seq<Obj>) {
    forall i, j :: 0 <= i < j < |objs| ==> objs[i].id != objs[j].id
  }

  /** Position of the first object with `id`, or |objs| when there is none: the scan that
      checkID, getObjectText and setObjectText share. */
  function FirstWithId(objs: seq<Obj>, id: int): (k: nat)
    ensures k <= |objs|
    ensures k < |objs| ==> objs[k].id == id
    ensures forall j :: 0 <= j < k ==> objs[j].id != id
  {
    if objs == [] || objs[0].id == id then 0 else 1 + FirstWithId(objs[1..], id)
  }

  /** checkID (Ann.py:98-101): whether some object uses `id`. */
  function UsesId(objs: seq<Obj>, id: int): (used: bool)
    ensures used <==> exists j :: 0 <= j < |objs| && objs[j].id == id
  {
    FirstWithId(objs, id) < |objs|
  }

  /** getObjectText (Ann.py:133-137): the text of the first object with `id`, or the sentinel. */
  function TextOf(objs: seq<Obj>, id: int): (t: Option<string>)
    ensures !UsesId(objs, id) ==> t == Some(NoneText)
    ensures UsesId(objs, id) ==> t == objs[FirstWithId(objs, id)].text
  {
    if objs == [] then Some(NoneText)
    else if objs[0].id == id then objs[0].text
    else TextOf(objs[1..], id)
  }

  /** setObjectText (Ann.py:139-144): the first object with `id` gets the new text, then the
      scan stops; every other object, and every id, stays as it was. */
  function WithText(objs: seq<Obj>, id: int, text: Option<string>): (r: seq<Obj>)
    ensures |r| == |objs|
    ensures forall j :: 0 <= j < |objs| ==>
      r[j] == if j == FirstWithId(objs, id) then objs[j].(text := text) else objs[j]
  {
    if objs == [] then []
    else if objs[0].id == id then [objs[0].(text := text)] + objs[1..]
    else [objs[0]] + WithText(objs[1..], id, text)
  }

  /** After setObjectText(id, t), getObjectText(id) answers t, or the sentinel when no
      object has that id. */
  lemma {:induction false} TextAfterSet(objs: seq<Obj>, id: int, text: Option<string>)
    ensures TextOf(WithText(objs, id, text), id) == if UsesId(objs, id) then text else Some(NoneText)
  {
    var r := WithText(objs, id, text);
    var k := FirstWithId(objs, id);
    assert FirstWithId(r, id) == k by {
      FirstWithIdIs(r, id, k);
    }
  }

  /** setObjectText(id, t) leaves the answer of getObjectText for every other id alone. */
  lemma {:induction false} TextAfterSetOther(objs: seq<Obj>, id: int, other: int, text: Option<string>)
    requires other != id
    ensures TextOf(WithText(objs, id, text), other) == TextOf(objs, other)
  {
    var r := WithText(objs, id, text);
    var k := FirstWithId(objs, other);
    FirstWithIdIs(r, other, k);
  }

  /** FirstWithId is determined by the first position that carries `id`. */
  lemma {:induction false} FirstWithIdIs(objs: seq<Obj>, id: int, k: nat)
    requires k <= |objs|
    requires k < |objs| ==> objs[k].id == id
    requires forall j :: 0 <= j < k ==> objs[j].id != id
    ensures FirstWithId(objs, id) == k
  {
    if k > 0 {
      FirstWithIdIs(objs[1..], id, k - 1);
    }
  }

  lemma UsesIdCons(objs: seq<Obj>, id: int)
    ensures objs != [] ==> (UsesId(objs, id) <==> objs[0].id == id || UsesId(objs[1..], id))
    ensures |objs| > 1 && objs[0].id == id ==> (UsesId(objs[1..], id) <==> objs[1].id == id || UsesId(objs[2..], id))
  {
    if |objs| > 1 {
      assert objs[1..][1..] == objs[2..];
    }
  }

  lemma TailUnique(objs: seq<Obj>)
    requires UniqueIds(objs) && objs != []
    ensures UniqueIds(objs[1..])
    ensures forall j :: 0 <= j < |objs| - 1 ==> objs[1..][j].id != objs[0].id
  {
  }

  /** deleteObject (Ann.py:118-122). It removes each match from the list it is iterating
      over, so the iterator steps past the object that slides into the freed position:
      that object is kept without being looked at. */
  function Removed(objs: seq<Obj>, id: int): (r: seq<Obj>)
    ensures |r| <= |objs|
  {
    if objs == [] then []
    else if objs[0].id != id then [objs[0]] + Removed(objs[1..], id)
    else if |objs| == 1 then []
    else [objs[1]] + Removed(objs[2..], id)
  }

  /** deleteObject shortens the list exactly when some object has the id. */
  lemma {:induction false} RemovedShrinks(objs: seq<Obj>, id: int)
    ensures |Removed(objs, id)| < |objs| <==> UsesId(objs, id)
  {
    UsesIdCons(objs, id);
    if objs != [] {
      if objs[0].id != id {
        RemovedShrinks(objs[1..], id);
      } else if |objs| > 1 {
        RemovedShrinks(objs[2..], id);
      }
    }
  }

  /** One step of deleteObject's scan. */
  lemma RemovedStep(objs: seq<Obj>, id: int)
    requires objs != []
    ensures objs[0].id != id ==> Removed(objs, id) == [objs[0]] + Removed(objs[1..], id)
    ensures objs[0].id == id && |objs| == 1 ==> Removed(objs, id) == []
    ensures objs[0].id == id && |objs| > 1 ==> Removed(objs, id) == [objs[1]] + Removed(objs[2..], id)
  {
  }

  /** deleteObject's scan at position i keeps the object there when its id differs. */
  lemma RemovedStepKeep(objs: seq<Obj>, i: nat, id: int)
    requires i < |objs| && objs[i].id != id
    ensures objs[..i + 1] + Removed(objs[i + 1..], id) == objs[..i] + Removed(objs[i..], id)
  {
    var rest := objs[i..];
    RemovedStep(rest, id);
    assert rest[1..] == objs[i + 1..];
    assert objs[..i + 1] == objs[..i] + [objs[i]];
  }

  /** deleteObject's scan at position i removes the object there when its id matches, and
      then moves on past the object that took its place. */
  lemma RemovedStepDrop(objs: seq<Obj>, i: nat, id: int)
    requires i < |objs| && objs[i].id == id
    ensures var after := objs[..i] + objs[i + 1..];
      var next := if i < |after| then i + 1 else i;
      after[..next] + Removed(after[next..], id) == objs[..i] + Removed(objs[i..], id)
  {
    var rest := objs[i..];
    var after := objs[..i] + objs[i + 1..];
    RemovedStep(rest, id);
    if i < |after| {
      assert rest[1] == objs[i + 1] && rest[2..] == objs[i + 2..];
      assert after[..i + 1] == objs[..i] + [objs[i + 1]];
      assert after[i + 1..] == objs[i + 2..];
    } else {
      assert after[..i] == objs[..i];
    }
  }

  /** Deleting an id that no object has changes nothing. */
  lemma {:induction false} RemovedAbsent(objs: seq<Obj>, id: int)
    requires !UsesId(objs, id)
    ensures Removed(objs, id) == objs
  {
    if objs != [] {
      assert !UsesId(objs[1..], id) by {
        forall j | 0 <= j < |objs[1..]| ensures objs[1..][j].id != id {
          assert objs[1..][j] == objs[j + 1];
        }
      }
      RemovedAbsent(objs[1..], id);
    }
  }

  /** With unique ids, deleteObject removes exactly the object with that id and keeps the
      others in their order. */
  lemma {:induction false} RemovedUnique(objs: seq<Obj>, id: int)
    requires UniqueIds(objs)
    ensures var k := FirstWithId(objs, id);
      Removed(objs, id) == if k < |objs| then objs[..k] + objs[k + 1..] else objs
  {
    var k := FirstWithId(objs, id);
    if k == |objs| {
      RemovedAbsent(objs, id);
    } else if k == 0 {
      RemovedHeadUnique(objs, id);
    } else {
      TailUnique(objs);
      var tail := objs[1..];
      FirstWithIdIs(tail, id, k - 1);
      RemovedUnique(tail, id);
      RemovedStep(objs, id);
      assert objs[..k] + objs[k + 1..] == [objs[0]] + (tail[..k - 1] + tail[k..]) by {
        assert objs[..k] == [objs[0]] + tail[..k - 1];
        assert objs[k + 1..] == tail[k..];
      }
    }
  }

  lemma RemovedHeadUnique(objs: seq<Obj>, id: int)
    requires UniqueIds(objs) && objs != [] && objs[0].id == id
    ensures Removed(objs, id) == objs[1..]
  {
    if |objs| > 1 {
      var rest := objs[2..];
      assert !UsesId(rest, id) by {
        forall j | 0 <= j < |rest| ensures rest[j].id != id {
          assert rest[j] == objs[j + 2];
        }
      }
      RemovedAbsent(rest, id);
      assert objs[1..] == [objs[1]] + rest;
    }
  }

  /** The quirk behind RemovedUnique's precondition: of two adjacent objects that share the
      deleted id, the second one survives. */
  lemma RemovedSkipsNeighbour(a: Obj, b: Obj)
    requires a.id == b.id
    ensures Removed([a, b], a.id) == [b]
  {
  }

  /** The objects whose id is not in `ids`, in their order. */
  function Keep(objs: seq<Obj>, ids: seq<int>): (r: seq<Obj>)
    ensures |r| <= |objs|
    ensures forall o :: o in r <==> o in objs && o.id !in ids
  {
    if objs == [] then []
    else (if objs[0].id in ids then [] else [objs[0]]) + Keep(objs[1..], ids)
  }

  /** deleteObjectsAt's loop (Ann.py:365-366): deleteObject for each id in turn. */
  function RemovedAll(objs: seq<Obj>, ids: seq<int>): (r: seq<Obj>)
    ensures |r| <= |objs|
    decreases |ids|
  {
    if ids == [] then objs else RemovedAll(Removed(objs, ids[0]), ids[1..])
  }

  /** deleteObjectsAt's loop one id further. */
  lemma {:induction false} RemovedAllSnoc(objs: seq<Obj>, ids: seq<int>, id: int)
    ensures RemovedAll(objs, ids + [id]) == Removed(RemovedAll(objs, ids), id)
    decreases |ids|
  {
    if ids == [] {
      assert ids + [id] == [id];
      assert [id][1..] == [];
    } else {
      assert (ids + [id])[0] == ids[0] && (ids + [id])[1..] == ids[1..] + [id];
      RemovedAllSnoc(Removed(objs, ids[0]), ids[1..], id);
    }
  }

  lemma {:induction false} KeepUnique(objs: seq<Obj>, ids: seq<int>)
    requires UniqueIds(objs)
    ensures UniqueIds(Keep(objs, ids))
  {
    if objs != [] {
      var tail := objs[1..];
      assert UniqueIds(tail) by {
        forall i, j | 0 <= i < j < |tail| ensures tail[i].id != tail[j].id {
          assert tail[i] == objs[i + 1] && tail[j] == objs[j + 1];
        }
      }
      KeepUnique(tail, ids);
      var rest := Keep(tail, ids);
      forall j | 0 <= j < |rest| ensures rest[j].id != objs[0].id {
        assert rest[j] in tail;
      }
    }
  }

  lemma {:induction false} KeepKeep(objs: seq<Obj>, a: int, ids: seq<int>)
    ensures Keep(Keep(objs, [a]), ids) == Keep(objs, [a] + ids)
  {
    if objs != [] {
      var o, tail := objs[0], objs[1..];
      KeepKeep(tail, a, ids);
      var k := Keep(tail, [a]);
      if o.id == a {
        assert Keep(objs, [a]) == k;
        assert o.id in [a] + ids;
      } else {
        assert Keep(objs, [a]) == [o] + k;
        assert ([o] + k)[0] == o && ([o] + k)[1..] == k;
        assert o.id in ids <==> o.id in [a] + ids;
      }
    }
  }

  lemma {:induction false} RemovedUniqueKeep(objs: seq<Obj>, id: int)
    requires UniqueIds(objs)
    ensures Removed(objs, id) == Keep(objs, [id])
  {
    if objs != [] {
      var tail := objs[1..];
      assert UniqueIds(tail) by {
        forall i, j | 0 <= i < j < |tail| ensures tail[i].id != tail[j].id {
          assert tail[i] == objs[i + 1] && tail[j] == objs[j + 1];
        }
      }
      if objs[0].id == id {
        assert !UsesId(tail, id) by {
          forall j | 0 <= j < |tail| ensures tail[j].id != id {
            assert tail[j] == objs[j + 1];
          }
        }
        RemovedAbsent(tail, id);
        KeepAbsent(tail, id);
        if |objs| > 1 {
          assert tail == [objs[1]] + objs[2..];
          RemovedAbsent(objs[2..], id);
        }
      } else {
        RemovedUniqueKeep(tail, id);
      }
    }
  }

  lemma {:induction false} KeepAbsent(objs: seq<Obj>, id: int)
    requires !UsesId(objs, id)
    ensures Keep(objs, [id]) == objs
  {
    if objs != [] {
      assert !UsesId(objs[1..], id) by {
        forall j | 0 <= j < |objs[1..]| ensures objs[1..][j].id != id {
          assert objs[1..][j] == objs[j + 1];
        }
      }
      KeepAbsent(objs[1..], id);
    }
  }

  /** With unique ids, deleting a list of ids removes exactly the objects whose id is in
      the list and keeps the others in their order. */
  lemma {:induction false} RemovedAllUnique(objs: seq<Obj>, ids: seq<int>)
    requires UniqueIds(objs)
    ensures RemovedAll(objs, ids) == Keep(objs, ids)
    decreases |ids|
  {
    if ids == [] {
      KeepNothing(objs);
    } else {
      var a := ids[0];
      RemovedUniqueKeep(objs, a);
      KeepUnique(objs, [a]);
      RemovedAllUnique(Keep(objs, [a]), ids[1..]);
      KeepKeep(objs, a, ids[1..]);
      assert [a] + ids[1..] == ids;
    }
  }

  lemma {:induction false} KeepNothing(objs: seq<Obj>)
    ensures Keep(objs, []) == objs
  {
    if objs != [] {
      KeepNothing(objs[1..]);
    }
  }

  /** Deleting keeps the ids unique and leaves no object with the deleted id. */
  lemma RemovedKeepsUnique(objs: seq<Obj>, id: int)
    requires UniqueIds(objs)
    ensures UniqueIds(Removed(objs, id)) && !UsesId(Removed(objs, id), id)
  {
    RemovedUniqueKeep(objs, id);
    KeepUnique(objs, [id]);
    var r := Keep(objs, [id]);
    forall j | 0 <= j < |r| ensures r[j].id != id {
      assert r[j] in r;
    }
  }

  /** Appending an object whose id no object uses keeps the ids unique. */
  lemma AddFreshKeepsUnique(objs: seq<Obj>, o: Obj)
    requires UniqueIds(objs) && !UsesId(objs, o.id)
    ensures UniqueIds(objs + [o])
  {
  }

  /** After addObject with an unused id, getObjectText finds the new object's text under
      that id, and answers as before for every other id. */
  lemma TextAfterAdd(objs: seq<Obj>, o: Obj, other: int)
    requires !UsesId(objs, o.id)
    ensures TextOf(objs + [o], o.id) == o.text
    ensures other != o.id ==> TextOf(objs + [o], other) == TextOf(objs, other)
  {
    var r := objs + [o];
    FirstWithIdIs(r, o.id, |objs|);
    if other != o.id {
      var k := FirstWithId(objs, other);
      if k < |objs| {
        FirstWithIdIs(r, other, k);
      } else {
        FirstWithIdIs(r, other, |r|);
      }
    }
  }

  /** The ids in use. */
  function IdSet(objs: seq<Obj>): (s: set<int>)
    ensures forall id :: id in s <==> UsesId(objs, id)
  {
    if objs == [] then {}
    else
      assert forall id :: UsesId(objs, id) <==> objs[0].id == id || UsesId(objs[1..], id) by {
        forall id ensures UsesId(objs, id) <==> objs[0].id == id || UsesId(objs[1..], id) {
          if UsesId(objs[1..], id) {
            var j :| 0 <= j < |objs[1..]| && objs[1..][j].id == id;
            assert objs[j + 1].id == id;
          }
          if UsesId(objs, id) && objs[0].id != id {
            var j :| 0 <= j < |objs| && objs[j].id == id;
            assert objs[1..][j - 1].id == id;
          }
        }
      }
      {objs[0].id} + IdSet(objs[1..])
  }

  lemma {:induction false} IdSetSize(objs: seq<Obj>)
    ensures |IdSet(objs)| <= |objs|
  {
    if objs != [] {
      IdSetSize(objs[1..]);
    }
  }

  /** The ids 0 .. n-1. */
  function Below(n: nat): (s: set<int>)
    ensures |s| == n
    ensures forall j :: j in s <==> 0 <= j < n
  {
    if n == 0 then {} else Below(n - 1) + {n - 1}
  }

  lemma SubsetBySize(a: set<int>, b: set<int>)
    requires a <= b && |b| <= |a|
    ensures a == b
  {
    assert b == a + (b - a);
    assert |b - a| == 0;
  }

  /** The pigeonhole fact behind getID's fallback (Ann.py:108): when the ids 0 .. n-1 are all
      in use by the n objects, every object's id is below n, so n itself is free. */
  lemma {:induction false} FullPrefixLeavesCountFree(objs: seq<Obj>)
    requires forall j :: 0 <= j < |objs| ==> UsesId(objs, j)
    ensures !UsesId(objs, |objs|)
  {
    var n := |objs|;
    IdSetSize(objs);
    SubsetBySize(Below(n), IdSet(objs));
    assert n !in Below(n);
  }
}
