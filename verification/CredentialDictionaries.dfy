/**
 Writing a dotted path into nested dictionaries in place. A dictionary owns the
 tree of dictionaries below it (`Repr`); `Model` is the JSON object it stands for.
 */
module CredentialDictionaries {
  import opened TelephonyCredentials

  /** A value that is not an object, or a nested dictionary. */
  datatype Entry = Leaf(value: Json) | Nested(dict: Dict)

  /** Setting a longer path: make sure of the child, then set the rest in it. */
  lemma SetThroughChild(m: Fields, path: Path, v: Json)
    requires |path| > 1
    ensures var child := Child(m, path[0]);
      m[path[0] := Obj(child)][path[0] := Obj(Set(child, path[1..], v))] == Set(m, path, v)
  {
  }

  class Dict {
    var entries: map<string, Entry>
    ghost var Repr: set<Dict>

    ghost predicate Valid()
      reads this, Repr
      decreases Repr
    {
      && this in Repr
      && (forall k :: k in entries && entries[k].Leaf? ==> !entries[k].value.Obj?)
      && (forall k :: k in entries && entries[k].Nested? ==>
            entries[k].dict in Repr && entries[k].dict.Repr < Repr
            && this !in entries[k].dict.Repr && entries[k].dict.Valid())
      && (forall j, k :: j in entries && k in entries && j != k && entries[j].Nested? && entries[k].Nested? ==>
            entries[j].dict.Repr !! entries[k].dict.Repr)
    }

    ghost function Model(): Fields
      requires Valid()
      reads this, Repr
      decreases Repr
    {
      map k | k in entries :: match entries[k] case Leaf(v) => v case Nested(d) => Obj(d.Model())
    }

    constructor ()
      ensures Valid() && Repr == {this} && Model() == map[]
    {
      entries := map[];
      Repr := {this};
    }

    /** Only the subtree of the child at `key` changed. */
    twostate lemma ChildChanged(key: string, new child: Dict)
      requires old(Valid()) && entries == old(entries) && key in entries && entries[key] == Nested(child)
      requires Repr == old(Repr) + child.Repr && child.Valid() && fresh(child.Repr - old(entries[key].dict.Repr))
      requires forall o :: o in old(Repr) && o != this && o !in old(entries[key].dict.Repr) ==> unchanged(o)
      ensures Valid() && Model() == old(Model())[key := Obj(child.Model())]
    {
      forall k | k in entries && k != key && entries[k].Nested?
        ensures entries[k].dict.Repr == old(entries[k].dict.Repr)
        ensures entries[k].dict.Valid() && entries[k].dict.Model() == old(entries[k].dict.Model())
      {
        assert forall o :: o in old(entries[k].dict.Repr) ==> unchanged(o);
      }
    }

    /** Only the entry at `key` changed, to a new dictionary. */
    twostate lemma DictStored(key: string, new child: Dict)
      requires old(Valid()) && entries == old(entries)[key := Nested(child)] && Repr == old(Repr) + child.Repr
      requires child.Valid() && fresh(child.Repr)
      requires forall o :: o in old(Repr) && o != this ==> unchanged(o)
      ensures Valid() && Model() == old(Model())[key := Obj(child.Model())]
    {
      OthersUntouched(key);
    }

    twostate lemma OthersUntouched(key: string)
      requires old(Valid()) && forall o :: o in old(Repr) && o != this ==> unchanged(o)
      ensures forall k :: k in old(entries) && k != key && old(entries)[k].Nested? ==>
        var d := old(entries)[k].dict;
        d.Repr == old(d.Repr) && d.Valid() && d.Model() == old(d.Model())
    {
      forall k | k in old(entries) && k != key && old(entries)[k].Nested?
        ensures var d := old(entries)[k].dict;
          d.Repr == old(d.Repr) && d.Valid() && d.Model() == old(d.Model())
      {
        var d := old(entries)[k].dict;
        assert forall o :: o in old(d.Repr) ==> unchanged(o);
      }
    }

    /** The dictionary under `key`, replacing anything else by a new empty one. */
    method EnsureChild(key: string) returns (child: Dict)
      requires Valid()
      modifies this
      ensures Valid() && fresh(Repr - old(Repr))
      ensures key in entries && entries[key] == Nested(child)
      ensures Model() == old(Model())[key := Obj(Child(old(Model()), key))]
      ensures child.Model() == Child(old(Model()), key)
    {
      if key in entries && entries[key].Nested? {
        child := entries[key].dict;
        assert Model()[key := Obj(child.Model())] == Model();
      } else {
        child := new Dict();
        entries := entries[key := Nested(child)];
        Repr := Repr + child.Repr;
        DictStored(key, child);
      }
    }

    method StoreLeaf(key: string, v: Json)
      requires Valid() && !v.Obj?
      modifies this
      ensures Valid() && Repr == old(Repr)
      ensures Model() == old(Model())[key := v]
    {
      entries := entries[key := Leaf(v)];
      OthersUntouched(key);
    }

    /** A dictionary value is stored as a dictionary of its own. */
    method StoreValue(key: string, v: Json)
      requires Valid()
      modifies this
      ensures Valid() && fresh(Repr - old(Repr))
      ensures Model() == old(Model())[key := v]
      decreases v, 1
    {
      if v.Obj? {
        var child := FromJson(v);
        entries := entries[key := Nested(child)];
        Repr := Repr + child.Repr;
        DictStored(key, child);
      } else {
        StoreLeaf(key, v);
      }
    }

    static method FromJson(v: Json) returns (d: Dict)
      requires v.Obj?
      ensures d.Valid() && fresh(d.Repr) && d.Model() == v.fields
      decreases v, 0
    {
      d := new Dict();
      var rest := v.fields.Keys;
      while rest != {}
        invariant rest <= v.fields.Keys
        invariant d.Valid() && fresh(d.Repr)
        invariant d.Model() == map k | k in v.fields && k !in rest :: v.fields[k]
        decreases rest
      {
        var k :| k in rest;
        rest := rest - {k};
        d.StoreValue(k, v.fields[k]);
      }
    }

    /** Creates missing dictionaries on the way, replaces non-dictionaries, and
        changes nothing off the path. */
    method SetNestedField(path: Path, v: Json)
      requires Valid()
      modifies Repr
      ensures Valid() && fresh(Repr - old(Repr))
      ensures Model() == Set(old(Model()), path, v)
      decreases |path|, 0
    {
      var key := path[0];
      if |path| == 1 {
        StoreValue(key, v);
        return;
      }
      SetThroughChild(Model(), path, v);
      var child := EnsureChild(key);
      SetBelow(key, child, path[1..], v);
    }

    /** Sets `rest` in the child under `key`. */
    method SetBelow(key: string, child: Dict, rest: Path, v: Json)
      requires Valid() && key in entries && entries[key] == Nested(child)
      modifies Repr
      ensures Valid() && fresh(Repr - old(Repr))
      ensures Model() == old(Model())[key := Obj(Set(old(child.Model()), rest, v))]
      decreases |rest|, 2
    {
      SetInChild(key, child, rest, v);
      ChildChanged(key, child);
    }

    /** Until `ChildChanged` is invoked, nothing is said of the whole tree. */
    method SetInChild(key: string, child: Dict, rest: Path, v: Json)
      requires Valid() && key in entries && entries[key] == Nested(child)
      modifies Repr
      ensures entries == old(entries) && Repr == old(Repr) + child.Repr
      ensures child.Valid() && child.Model() == Set(old(child.Model()), rest, v)
      ensures fresh(child.Repr - old(child.Repr))
      ensures forall o :: o in old(Repr) && o != this && o !in old(child.Repr) ==> unchanged(o)
      decreases |rest|, 1
    {
      child.SetNestedField(rest, v);
      Repr := Repr + child.Repr;
    }
  }
}
