/**
 * A thing in the world (model/Thing.java): its attributes, keyed by name,
 * and the set of ids of the things it contains.
 */
module ThingModel {
  import opened Base
  import opened AttrModel

  /**
   * The names of the two attributes every thing is created with.
   * AttrNames.java is not part of this model; only the fact that the two
   * names differ matters here.
   */
  const NAME: string := "name"
  const UNIVERSE: string := "universe"

  /**
   * The attribute map built from a list of attributes by putting each in
   * turn under its own name, so a later attribute replaces an earlier one
   * of the same name.
   */
  function CollectAttrs(list: seq<Attr>): (m: map<string, Attr>)
    ensures forall n :: n in m ==> m[n].name == n
    decreases |list|
  {
    if |list| == 0 then map[]
    else
      var last := list[|list| - 1];
      CollectAttrs(list[..|list| - 1])[last.name := last]
  }

  /** A name is a key exactly when some attribute has it, and maps to the last such attribute. */
  lemma {:induction false} CollectAttrsMeaning(list: seq<Attr>, n: string)
    ensures n in CollectAttrs(list) <==> exists i :: 0 <= i < |list| && list[i].name == n
    ensures n in CollectAttrs(list) ==>
      exists i :: 0 <= i < |list| && CollectAttrs(list)[n] == list[i]
        && forall j :: i < j < |list| ==> list[j].name != n
    decreases |list|
  {
    if |list| > 0 {
      var init := list[..|list| - 1];
      CollectAttrsMeaning(init, n);
      assert forall i :: 0 <= i < |init| ==> init[i] == list[i];
      if list[|list| - 1].name != n && n in CollectAttrs(init) {
        var i :| 0 <= i < |init| && CollectAttrs(init)[n] == init[i]
                 && forall j :: i < j < |init| ==> init[j].name != n;
        assert CollectAttrs(list)[n] == list[i];
      }
    }
  }

  function NotFound(name: string): Exception
  {
    IllegalState("Attribute " + name + " not found")
  }

  class Thing {
    const id: string
    var attrs: map<string, Attr>
    var contents: set<string>

    /** Every attribute is stored under its own name. */
    ghost predicate Valid()
      reads this
    {
      forall n :: n in attrs ==> attrs[n].name == n
    }

    /** A new thing has only its name and universe attributes, and no contents. */
    constructor (name: string, universeName: string, id: string)
      ensures Valid()
      ensures this.id == id
      ensures attrs == map[NAME := StringAttr(NAME, name), UNIVERSE := StringAttr(UNIVERSE, universeName)]
      ensures contents == {}
    {
      this.id := id;
      attrs := map[NAME := StringAttr(NAME, name), UNIVERSE := StringAttr(UNIVERSE, universeName)];
      contents := {};
    }

    /** The deserializing constructor: it takes the attributes and contents as given. */
    constructor FromParts(id: string, list: seq<Attr>, contents: set<string>)
      ensures Valid()
      ensures this.id == id && attrs == CollectAttrs(list) && this.contents == contents
    {
      this.id := id;
      attrs := CollectAttrs(list);
      this.contents := contents;
    }

    function GetAttr(name: string): (r: Option<Attr>)
      reads this
      ensures r.Some? <==> name in attrs
      ensures r.Some? ==> r.value == attrs[name]
    {
      if name in attrs then Some(attrs[name]) else None
    }

    /** Stores the attribute under its name, replacing any attribute of that name. */
    method SetAttr(a: Attr)
      requires Valid()
      modifies this
      ensures Valid()
      ensures attrs == old(attrs)[a.name := a] && contents == old(contents)
      ensures GetAttr(a.name) == Some(a)
      ensures forall n :: n != a.name ==> GetAttr(n) == old(GetAttr(n))
    {
      attrs := attrs[a.name := a];
    }

    method RemoveAttr(name: string)
      requires Valid()
      modifies this
      ensures Valid()
      ensures attrs == old(attrs) - {name} && contents == old(contents)
      ensures GetAttr(name) == None
      ensures forall n :: n != name ==> GetAttr(n) == old(GetAttr(n))
    {
      attrs := attrs - {name};
    }

    /**
     * Adds to an INTEGER attribute with Java int wrap-around and returns
     * the new value; a missing attribute, another type or unparsable text
     * is an error and changes nothing.
     */
    method AddToAttr(name: string, incr: int) returns (r: Result<int, Exception>)
      requires Valid() && IsInt32(incr)
      modifies this
      ensures Valid() && contents == old(contents)
      ensures name !in old(attrs) ==> r == Failure(NotFound(name))
      ensures name in old(attrs) && old(attrs)[name].kind != INTEGER ==> r == Failure(WrongType(old(attrs)[name]))
      ensures name in old(attrs) && GetIntValue(old(attrs)[name]).Success? <==> r.Success?
      ensures r.Success? ==>
        r.value == WrapInt32(GetIntValue(old(attrs)[name]).value + incr)
        && attrs == old(attrs)[name := IntAttr(name, r.value)]
        && GetIntValue(attrs[name]) == Success(r.value)
      ensures r.Failure? ==> attrs == old(attrs)
    {
      if name !in attrs {
        return Failure(NotFound(name));
      }
      var a := attrs[name];
      if a.kind != INTEGER {
        return Failure(WrongType(a));
      }
      var current := GetIntValue(a);
      if current.Failure? {
        return Failure(current.error);
      }
      var newValue := WrapInt32(current.value + incr);
      IntRoundTrip(name, newValue);
      attrs := attrs[name := IntAttr(name, newValue)];
      return Success(newValue);
    }

    /**
     * Sets a BOOLEAN attribute to `value` only when it currently reads as
     * `expected`, and says whether it did.
     */
    method CompareAndSetAttr(name: string, expected: bool, value: bool) returns (r: Result<bool, Exception>)
      requires Valid()
      modifies this
      ensures Valid() && contents == old(contents)
      ensures name !in old(attrs) ==> r == Failure(NotFound(name))
      ensures name in old(attrs) && old(attrs)[name].kind != BOOLEAN ==> r == Failure(WrongType(old(attrs)[name]))
      ensures name in old(attrs) && old(attrs)[name].kind == BOOLEAN ==>
        r == Success(GetBooleanValue(old(attrs)[name]).value == expected)
      ensures r == Success(true) ==> attrs == old(attrs)[name := BooleanAttr(name, value)]
      ensures r == Success(true) ==> GetBooleanValue(attrs[name]) == Success(value)
      ensures r != Success(true) ==> attrs == old(attrs)
    {
      if name !in attrs {
        return Failure(NotFound(name));
      }
      var a := attrs[name];
      if a.kind != BOOLEAN {
        return Failure(WrongType(a));
      }
      if GetBooleanValue(a).value != expected {
        return Success(false);
      }
      BooleanRoundTrip(name, value);
      attrs := attrs[name := BooleanAttr(name, value)];
      return Success(true);
    }

    /** Stores a new value in a BOOLEAN attribute and returns the one it replaced. */
    method GetAndSetAttr(name: string, value: bool) returns (r: Result<bool, Exception>)
      requires Valid()
      modifies this
      ensures Valid() && contents == old(contents)
      ensures name !in old(attrs) ==> r == Failure(NotFound(name))
      ensures name in old(attrs) && old(attrs)[name].kind != BOOLEAN ==> r == Failure(WrongType(old(attrs)[name]))
      ensures name in old(attrs) && old(attrs)[name].kind == BOOLEAN ==>
        r == GetBooleanValue(old(attrs)[name])
        && attrs == old(attrs)[name := BooleanAttr(name, value)]
        && GetBooleanValue(attrs[name]) == Success(value)
      ensures r.Failure? ==> attrs == old(attrs)
    {
      if name !in attrs {
        return Failure(NotFound(name));
      }
      var a := attrs[name];
      if a.kind != BOOLEAN {
        return Failure(WrongType(a));
      }
      var oldValue := GetBooleanValue(a);
      BooleanRoundTrip(name, value);
      attrs := attrs[name := BooleanAttr(name, value)];
      return oldValue;
    }

    function Has(thingId: string): (r: bool)
      reads this
      ensures r <==> thingId in contents
    {
      thingId in contents
    }

    method Give(thingId: string)
      modifies this
      ensures contents == old(contents) + {thingId} && attrs == old(attrs)
      ensures Has(thingId)
    {
      contents := contents + {thingId};
    }

    method Take(thingId: string)
      modifies this
      ensures contents == old(contents) - {thingId} && attrs == old(attrs)
      ensures !Has(thingId)
    {
      contents := contents - {thingId};
    }
  }

  /**
   * Deserializing a thing: the attributes are collected by name, and the
   * name and universe attributes must both be present.
   */
  method Deserialize(id: string, list: seq<Attr>, contents: set<string>) returns (r: Result<Thing, Exception>)
    ensures NAME !in CollectAttrs(list) ==>
      r == Failure(IllegalArgument("Name not defined for thing with ID " + id))
    ensures NAME in CollectAttrs(list) && UNIVERSE !in CollectAttrs(list) ==>
      r == Failure(IllegalArgument("Universe name not defined for thing with ID " + id))
    ensures r.Success? ==>
      fresh(r.value) && r.value.Valid() && r.value.id == id
      && r.value.attrs == CollectAttrs(list) && r.value.contents == contents
    ensures r.Success? <==> NAME in CollectAttrs(list) && UNIVERSE in CollectAttrs(list)
  {
    var m := CollectAttrs(list);
    if NAME !in m {
      return Failure(IllegalArgument("Name not defined for thing with ID " + id));
    }
    if UNIVERSE !in m {
      return Failure(IllegalArgument("Universe name not defined for thing with ID " + id));
    }
    var t := new Thing.FromParts(id, list, contents);
    return Success(t);
  }

  /** A deserialized thing has a name and a universe exactly when some listed attribute carries each. */
  lemma DeserializeNeeds(list: seq<Attr>)
    ensures NAME in CollectAttrs(list) && UNIVERSE in CollectAttrs(list) <==>
      (exists i :: 0 <= i < |list| && list[i].name == NAME)
      && (exists i :: 0 <= i < |list| && list[i].name == UNIVERSE)
  {
    CollectAttrsMeaning(list, NAME);
    CollectAttrsMeaning(list, UNIVERSE);
  }
}
