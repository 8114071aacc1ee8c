/** The display file of DisplayFile.py: the list of objects the editor
    draws, each at most once, in the order they were added. */
module DisplayFiles {
  import opened Wrappers
  import opened Objects

  /** The list after `add_object(c)`: an object not yet listed goes to the
      end; an object already listed, or anything that is not an object
      (null), leaves the list as it is. */
  function Added(objs: seq<Objeto3D>, c: Objeto3D?): seq<Objeto3D> {
    if c != null && c !in objs then objs + [c] else objs
  }

  /** The list after `list.remove(o)`: its first occurrence deleted. */
  function Removed(objs: seq<Objeto3D>, o: Objeto3D): (r: seq<Objeto3D>)
    decreases |objs|
  {
    if objs == [] then []
    else if objs[0] == o then objs[1..]
    else [objs[0]] + Removed(objs[1..], o)
  }

  /** Adding keeps the list free of duplicates, keeps what was there in
      order, and afterwards the object is listed exactly when it is one;
      adding it a second time changes nothing. */
  lemma AddedSpec(objs: seq<Objeto3D>, c: Objeto3D?)
    requires NoDuplicates(objs)
    ensures var r := Added(objs, c);
            && NoDuplicates(r)
            && |objs| <= |r| <= |objs| + 1 && r[..|objs|] == objs
            && (c in r <==> c != null)
            && (c in objs ==> r == objs)
            && Added(r, c) == r
  {
    var r := Added(objs, c);
    assert r[..|objs|] == objs;
  }

  /** Where `list.remove(o)` finds o: its first position. */
  function FirstIndex(objs: seq<Objeto3D>, o: Objeto3D): (r: nat)
    requires o in objs
    ensures r < |objs| && objs[r] == o && o !in objs[..r]
    decreases |objs|
  {
    if objs[0] == o then 0
    else
      var r := FirstIndex(objs[1..], o);
      assert objs[..r + 1] == [objs[0]] + objs[1..][..r];
      r + 1
  }

  /** Removing an absent object changes nothing; removing a listed one
      deletes its first occurrence and keeps the others in order. */
  lemma {:induction false} RemovedSpec(objs: seq<Objeto3D>, o: Objeto3D)
    ensures o !in objs ==> Removed(objs, o) == objs
    ensures o in objs ==> Removed(objs, o) == objs[..FirstIndex(objs, o)] + objs[FirstIndex(objs, o) + 1..]
    decreases |objs|
  {
    if objs != [] {
      RemovedSpec(objs[1..], o);
      if objs[0] == o {
        assert objs[..0] == [];
      } else if o in objs {
        assert o in objs[1..];
        var t := objs[1..];
        var i := FirstIndex(t, o);
        assert FirstIndex(objs, o) == i + 1;
        assert Removed(objs, o) == [objs[0]] + Removed(t, o);
        assert objs == [objs[0]] + t;
        DropAfterFirst(objs[0], t, i);
      } else {
        assert objs == [objs[0]] + objs[1..];
      }
    }
  }

  /** Dropping the entry after the head is dropping entry i of the tail. */
  lemma DropAfterFirst<T>(x: T, t: seq<T>, i: nat)
    requires i < |t|
    ensures [x] + (t[..i] + t[i + 1..]) == ([x] + t)[..i + 1] + ([x] + t)[i + 2..]
  {
    assert ([x] + t)[..i + 1] == [x] + t[..i];
    assert ([x] + t)[i + 2..] == t[i + 1..];
  }

  /** Removing keeps the list free of duplicates and leaves the object out. */
  lemma {:induction false} RemovedKeepsDistinct(objs: seq<Objeto3D>, o: Objeto3D)
    requires NoDuplicates(objs)
    ensures NoDuplicates(Removed(objs, o)) && o !in Removed(objs, o)
    ensures forall x :: x in Removed(objs, o) <==> x in objs && x != o
    decreases |objs|
  {
    if objs != [] {
      RemovedKeepsDistinct(objs[1..], o);
      if objs[0] != o {
        assert objs[0] !in objs[1..];
      }
    }
  }

  /** `DisplayFile` without its frame. */
  class DisplayFile {
    var objects: seq<Objeto3D>

    /** The list holds no object twice. */
    ghost predicate Valid()
      reads this
    {
      NoDuplicates(objects)
    }

    constructor()
      ensures objects == [] && Valid()
    {
      objects := [];
    }

    /** `add_object`; null stands for a value that is not an `Objeto3D`. */
    method AddObject(c: Objeto3D?)
      requires Valid()
      modifies this
      ensures Valid() && objects == Added(old(objects), c)
    {
      AddedSpec(objects, c);
      if c != null && c !in objects {
        objects := objects + [c];
      }
    }

    /** `remove_object`: search for the first occurrence and cut it out. */
    method RemoveObject(o: Objeto3D)
      requires Valid()
      modifies this
      ensures Valid() && objects == Removed(old(objects), o)
    {
      RemovedKeepsDistinct(objects, o);
      RemovedSpec(objects, o);
      var i := 0;
      while i < |objects| && objects[i] != o
        invariant 0 <= i <= |objects| && o !in objects[..i]
      {
        assert objects[..i + 1] == objects[..i] + [objects[i]];
        i := i + 1;
      }
      if i < |objects| {
        FirstIndexAt(objects, o, i);
        objects := objects[..i] + objects[i + 1..];
      } else {
        assert objects[..i] == objects;
      }
    }
  }

  /** A position of o with no o before it is the first position. */
  lemma FirstIndexAt(objs: seq<Objeto3D>, o: Objeto3D, i: nat)
    requires i < |objs| && objs[i] == o && o !in objs[..i]
    ensures FirstIndex(objs, o) == i
  {
  }
}
