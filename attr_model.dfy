/**
 * The server's typed attribute (model/Attr.java): an immutable name, value
 * text and type; constructors that fix the text of each type; typed
 * getters that refuse the wrong type; the `name[TYPE]=value` spec printer
 * and parser; and lookups in attribute-list values.
 */
module AttrModel {
  import opened Base
  import AttrJson

  datatype AttrType = STRING | INTEGER | BOOLEAN | THING | ATTR | ATTRLIST

  datatype Attr = Attr(name: string, value: string, kind: AttrType)

  function TypeName(t: AttrType): (s: string)
    ensures |s| > 0 && ']' !in s && '[' !in s
  {
    match t
    case STRING => "STRING"
    case INTEGER => "INTEGER"
    case BOOLEAN => "BOOLEAN"
    case THING => "THING"
    case ATTR => "ATTR"
    case ATTRLIST => "ATTRLIST"
  }

  /** Type.valueOf: exactly the constant names. */
  function TypeValueOf(s: string): (r: Option<AttrType>)
    ensures r.Some? ==> TypeName(r.value) == s
  {
    if s == "STRING" then Some(STRING)
    else if s == "INTEGER" then Some(INTEGER)
    else if s == "BOOLEAN" then Some(BOOLEAN)
    else if s == "THING" then Some(THING)
    else if s == "ATTR" then Some(ATTR)
    else if s == "ATTRLIST" then Some(ATTRLIST)
    else None
  }

  lemma TypeNameRoundTrip(t: AttrType)
    ensures TypeValueOf(TypeName(t)) == Some(t)
  {
  }

  // ---------------------------------------------------------------------
  // Constructors

  /** The private constructor: a missing type means STRING. */
  function NewAttr(name: string, value: string, kind: Option<AttrType>): (a: Attr)
    ensures a.name == name && a.value == value
    ensures a.kind == if kind.Some? then kind.value else STRING
  {
    Attr(name, value, if kind.Some? then kind.value else STRING)
  }

  function StringAttr(name: string, value: string): (a: Attr)
    ensures a == Attr(name, value, STRING)
  {
    NewAttr(name, value, Some(STRING))
  }

  function BooleanAttr(name: string, b: bool): (a: Attr)
    ensures a.kind == BOOLEAN && a.name == name
    ensures a.value == (if b then "true" else "false")
  {
    NewAttr(name, if b then "true" else "false", Some(BOOLEAN))
  }

  /** Integer.toString(value, 10) of a Java int. */
  function IntAttr(name: string, v: int): (a: Attr)
    requires IsInt32(v)
    ensures a.kind == INTEGER && a.name == name && a.value == DecimalString(v)
  {
    NewAttr(name, DecimalString(v), Some(INTEGER))
  }

  /** A thing attribute holds the thing's id as text. */
  function ThingAttr(name: string, thingId: string): (a: Attr)
    ensures a == Attr(name, thingId, THING)
  {
    NewAttr(name, thingId, Some(THING))
  }

  function ToEntry(a: Attr): AttrJson.Entry
  {
    AttrJson.Entry(a.name, a.value, TypeName(a.kind))
  }

  function FromEntry(e: AttrJson.Entry): (r: Option<Attr>)
    ensures r.Some? ==> ToEntry(r.value) == e
  {
    match TypeValueOf(e.kind)
    case None => None
    case Some(t) => Some(Attr(e.name, e.value, t))
  }

  function ToEntries(list: seq<Attr>): (r: seq<AttrJson.Entry>)
    ensures |r| == |list| && forall i :: 0 <= i < |list| ==> r[i] == ToEntry(list[i])
  {
    if |list| == 0 then [] else [ToEntry(list[0])] + ToEntries(list[1..])
  }

  function FromEntries(es: seq<AttrJson.Entry>): (r: Option<seq<Attr>>)
    ensures r.Some? ==> |r.value| == |es| && forall i :: 0 <= i < |es| ==> ToEntry(r.value[i]) == es[i]
  {
    if |es| == 0 then Some([])
    else
      match (FromEntry(es[0]), FromEntries(es[1..]))
      case (Some(a), Some(rest)) => Some([a] + rest)
      case _ => None
  }

  lemma {:induction false} EntriesRoundTrip(list: seq<Attr>)
    ensures FromEntries(ToEntries(list)) == Some(list)
  {
    if |list| > 0 {
      EntriesRoundTrip(list[1..]);
      TypeNameRoundTrip(list[0].kind);
      assert ToEntries(list)[1..] == ToEntries(list[1..]);
      assert [list[0]] + list[1..] == list;
    }
  }

  /** An attr attribute holds the JSON of its attribute. */
  function AttrAttr(name: string, inner: Attr): (a: Attr)
    ensures a.kind == ATTR && a.name == name && a.value == AttrJson.EncodeEntry(ToEntry(inner))
  {
    NewAttr(name, AttrJson.EncodeEntry(ToEntry(inner)), Some(ATTR))
  }

  /** An attrlist attribute holds the JSON array of its attributes. */
  function AttrListAttr(name: string, list: seq<Attr>): (a: Attr)
    ensures a.kind == ATTRLIST && a.name == name && a.value == AttrJson.EncodeList(ToEntries(list))
  {
    NewAttr(name, AttrJson.EncodeList(ToEntries(list)), Some(ATTRLIST))
  }

  // ---------------------------------------------------------------------
  // Typed getters

  function WrongType(a: Attr): Exception
  {
    IllegalState("Attribute " + a.name + " is type " + TypeName(a.kind))
  }

  /** Integer.parseInt's complaint. */
  function ForInputString(s: string): Exception
  {
    NumberFormat("For input string: \"" + s + "\"")
  }

  /** Integer.parseInt: the int the text denotes, or its complaint. */
  function ParseJavaInt(s: string): (r: Result<int, Exception>)
    ensures r.Success? <==> ParseInt32(s).Some?
    ensures r.Success? ==> r.value == ParseInt32(s).value
    ensures r.Failure? ==> r.error == ForInputString(s)
  {
    match ParseInt32(s)
      case None => Failure(ForInputString(s))
      case Some(v) => Success(v)
  }

  function GetIntValue(a: Attr): (r: Result<int, Exception>)
    ensures a.kind != INTEGER <==> r == Failure(WrongType(a))
    ensures r.Success? ==> IsInt32(r.value) && ParseInt32(a.value) == Some(r.value)
  {
    if a.kind != INTEGER then Failure(WrongType(a))
    else ParseJavaInt(a.value)
  }

  /** Boolean.parseBoolean: "true" in any case is true, anything else false. */
  function GetBooleanValue(a: Attr): (r: Result<bool, Exception>)
    ensures a.kind != BOOLEAN <==> r.Failure?
    ensures r.Failure? ==> r.error == WrongType(a)
  {
    if a.kind != BOOLEAN then Failure(WrongType(a)) else Success(EqualsIgnoreCase(a.value, "true"))
  }

  function GetThingValue(a: Attr): (r: Result<string, Exception>)
    ensures a.kind != THING <==> r.Failure?
    ensures r.Failure? ==> r.error == WrongType(a)
    ensures r.Success? ==> r.value == a.value
  {
    if a.kind != THING then Failure(WrongType(a)) else Success(a.value)
  }

  function GetAttrValue(a: Attr): (r: Result<Attr, Exception>)
    ensures a.kind != ATTR ==> r == Failure(WrongType(a))
    ensures r.Success? ==> AttrJson.ParseEntry(a.value) == Some((ToEntry(r.value), ""))
  {
    if a.kind != ATTR then Failure(WrongType(a))
    else match AttrJson.ParseEntry(a.value)
      case Some((e, "")) =>
        (match FromEntry(e)
         case Some(inner) => Success(inner)
         case None => Failure(IllegalArgument("Failed to create attribute from JSON")))
      case _ => Failure(IllegalArgument("Failed to create attribute from JSON"))
  }

  function GetAttrListValue(a: Attr): (r: Result<seq<Attr>, Exception>)
    ensures a.kind != ATTRLIST ==> r == Failure(WrongType(a))
    ensures r.Success? ==> AttrJson.DecodeList(a.value) == Some(ToEntries(r.value))
  {
    if a.kind != ATTRLIST then Failure(WrongType(a))
    else match AttrJson.DecodeList(a.value)
      case None => Failure(IllegalArgument("Failed to create attribute list from JSON"))
      case Some(es) =>
        match FromEntries(es)
        case None => Failure(IllegalArgument("Failed to create attribute list from JSON"))
        case Some(list) =>
          assert ToEntries(list) == es;
          Success(list)
  }

  /** Each constructor's value reads back through the getter of its type. */
  lemma IntRoundTrip(name: string, v: int)
    requires IsInt32(v)
    ensures GetIntValue(IntAttr(name, v)) == Success(v)
  {
    DecimalRoundTrip(v, INT_MIN, INT_MAX);
  }

  lemma BooleanRoundTrip(name: string, b: bool)
    ensures GetBooleanValue(BooleanAttr(name, b)) == Success(b)
  {
    assert Upper("true") == "TRUE";
    assert Upper("false") == "FALSE";
  }

  lemma ThingRoundTrip(name: string, thingId: string)
    ensures GetThingValue(ThingAttr(name, thingId)) == Success(thingId)
  {
  }

  lemma AttrRoundTrip(name: string, inner: Attr)
    ensures GetAttrValue(AttrAttr(name, inner)) == Success(inner)
  {
    AttrJson.EntryRoundTrip(ToEntry(inner), "");
    assert AttrJson.EncodeEntry(ToEntry(inner)) + "" == AttrJson.EncodeEntry(ToEntry(inner));
    TypeNameRoundTrip(inner.kind);
  }

  lemma AttrListRoundTrip(name: string, list: seq<Attr>)
    ensures GetAttrListValue(AttrListAttr(name, list)) == Success(list)
  {
    AttrJson.ListRoundTrip(ToEntries(list));
    EntriesRoundTrip(list);
  }

  // ---------------------------------------------------------------------
  // Lookups in attribute lists

  /** The first element with the given name. */
  function FirstNamed(list: seq<Attr>, name: string): (r: Option<Attr>)
    ensures r.Some? <==> exists i :: 0 <= i < |list| && list[i].name == name
    ensures r.Some? ==> exists i :: 0 <= i < |list| && list[i] == r.value && r.value.name == name
                          && forall j :: 0 <= j < i ==> list[j].name != name
  {
    if |list| == 0 then None
    else if list[0].name == name then Some(list[0])
    else
      var r := FirstNamed(list[1..], name);
      assert forall i :: 1 <= i < |list| ==> list[1..][i - 1] == list[i];
      r
  }

  function GetAttrInAttrListValue(a: Attr, name: string): (r: Result<Option<Attr>, Exception>)
    ensures r.Success? <==> GetAttrListValue(a).Success?
    ensures r.Success? ==> r.value == FirstNamed(GetAttrListValue(a).value, name)
  {
    match GetAttrListValue(a)
    case Failure(e) => Failure(e)
    case Success(list) => Success(FirstNamed(list, name))
  }

  predicate DistinctNames(list: seq<Attr>)
  {
    forall i, j :: 0 <= i < j < |list| ==> list[i].name != list[j].name
  }

  /** Collectors.toMap keyed by name, with no merge function: a repeated name throws. */
  function ListAsMap(list: seq<Attr>): (r: Result<map<string, Attr>, Exception>)
    decreases |list|
  {
    if |list| == 0 then Success(map[])
    else
      match ListAsMap(list[..|list| - 1])
      case Failure(e) => Failure(e)
      case Success(m) =>
        var last := list[|list| - 1];
        if last.name in m then Failure(IllegalState("Duplicate key " + last.name))
        else Success(m[last.name := last])
  }

  /**
   * The map is built exactly when the names are distinct, and then maps each
   * name to its element and nothing else.
   */
  lemma {:induction false} ListAsMapMeaning(list: seq<Attr>)
    ensures ListAsMap(list).Success? <==> DistinctNames(list)
    ensures ListAsMap(list).Success? ==>
      (forall n :: n in ListAsMap(list).value <==> exists i :: 0 <= i < |list| && list[i].name == n)
      && (forall i :: 0 <= i < |list| ==> ListAsMap(list).value[list[i].name] == list[i])
  {
    if |list| > 0 {
      var init := list[..|list| - 1];
      ListAsMapMeaning(init);
      assert forall i :: 0 <= i < |init| ==> init[i] == list[i];
      var last := list[|list| - 1];
      if ListAsMap(init).Failure? {
        assert !DistinctNames(list);
      } else if last.name in ListAsMap(init).value {
        var i :| 0 <= i < |init| && init[i].name == last.name;
        assert list[i].name == list[|list| - 1].name;
      } else {
        ListAsMapSnoc(list, ListAsMap(init).value, ListAsMap(init).value[last.name := last]);
      }
    }
  }

  /** A new name added at the end of a map-backed list. */
  lemma ListAsMapSnoc(list: seq<Attr>, m: map<string, Attr>, m': map<string, Attr>)
    requires |list| > 0 && DistinctNames(list[..|list| - 1]) && list[|list| - 1].name !in m
    requires m' == m[list[|list| - 1].name := list[|list| - 1]]
    requires forall n :: n in m <==> exists i :: 0 <= i < |list| - 1 && list[i].name == n
    requires forall i :: 0 <= i < |list| - 1 ==> m[list[i].name] == list[i]
    ensures DistinctNames(list)
    ensures forall n :: n in m' <==> exists i :: 0 <= i < |list| && list[i].name == n
    ensures forall i :: 0 <= i < |list| ==> m'[list[i].name] == list[i]
  {
    var k := |list| - 1;
    var last := list[k];
    forall i, j | 0 <= i < j < |list|
      ensures list[i].name != list[j].name
    {
      if j < k {
        assert list[..k][i] == list[i] && list[..k][j] == list[j];
      } else {
        assert list[i].name in m;
      }
    }
    forall n | n in m'
      ensures exists i :: 0 <= i < |list| && list[i].name == n
    {
      if n == last.name {
        assert list[k].name == n;
      } else {
        assert n in m;
        var i :| 0 <= i < k && list[i].name == n;
      }
    }
    forall i | 0 <= i < |list|
      ensures m'[list[i].name] == list[i]
    {
      if i < k {
        assert list[i].name in m;
      }
    }
  }

  function GetAttrListValueAsMap(a: Attr): (r: Result<map<string, Attr>, Exception>)
    ensures GetAttrListValue(a).Failure? ==> r == Failure(GetAttrListValue(a).error)
    ensures GetAttrListValue(a).Success? ==> r == ListAsMap(GetAttrListValue(a).value)
  {
    match GetAttrListValue(a)
    case Failure(e) => Failure(e)
    case Success(list) => ListAsMap(list)
  }

  /** Attr.equals: the same name, type and value. */
  predicate Equals(a: Attr, b: Attr)
    ensures Equals(a, b) <==> a == b
  {
    a.name == b.name && a.kind == b.kind && a.value == b.value
  }

  // ---------------------------------------------------------------------
  // Specs

  function ToAttrSpec(a: Attr): string
  {
    a.name + "[" + TypeName(a.kind) + "]=" + a.value
  }

  /** The first index at or after `from` holding c. */
  function IndexFrom(s: string, c: char, from: nat): (r: Option<nat>)
    ensures r.Some? ==> from <= r.value < |s| && s[r.value] == c
                        && forall k :: from <= k < r.value ==> s[k] != c
    ensures r.None? ==> forall k :: from <= k < |s| ==> s[k] != c
    decreases |s| - from
  {
    if from >= |s| then None
    else if s[from] == c then Some(from)
    else IndexFrom(s, c, from + 1)
  }

  /** The last index before `upto` holding c. */
  function LastIndexBefore(s: string, c: char, upto: nat): (r: Option<nat>)
    requires upto <= |s|
    ensures r.Some? ==> r.value < upto && s[r.value] == c && forall k :: r.value < k < upto ==> s[k] != c
    ensures r.None? ==> forall k :: 0 <= k < upto ==> s[k] != c
  {
    if upto == 0 then None
    else if s[upto - 1] == c then Some(upto - 1)
    else LastIndexBefore(s, c, upto - 1)
  }

  /**
   * The two spec patterns. `name[type]=value`: the name is everything
   * before the first '[', the type everything up to the next ']', which
   * must be followed by '='; both non-empty. Otherwise `name=value`: the
   * name is the longest '['-free prefix ending before an '=' (so the split
   * is at the last '=' before any '['), and must be non-empty.
   */
  datatype SpecParts = Typed(name: string, typeText: string, value: string) | Untyped(name: string, value: string)

  function MatchSpec(spec: string): (r: Option<SpecParts>)
    ensures r.Some? && r.value.Typed? ==>
      spec == r.value.name + "[" + r.value.typeText + "]=" + r.value.value
      && |r.value.name| > 0 && '[' !in r.value.name && |r.value.typeText| > 0 && ']' !in r.value.typeText
    ensures r.Some? && r.value.Untyped? ==>
      spec == r.value.name + "=" + r.value.value && |r.value.name| > 0 && '[' !in r.value.name
  {
    var bracket := IndexFrom(spec, '[', 0);
    var typed := MatchTyped(spec);
    if typed.Some? then typed
    else MatchUntyped(spec, if bracket.Some? then bracket.value else |spec|)
  }

  /** The `name[type]=value` pattern. */
  function MatchTyped(spec: string): (r: Option<SpecParts>)
    ensures r.Some? ==>
      r.value.Typed?
      && spec == r.value.name + "[" + r.value.typeText + "]=" + r.value.value
      && |r.value.name| > 0 && '[' !in r.value.name && |r.value.typeText| > 0 && ']' !in r.value.typeText
  {
    var bracket := IndexFrom(spec, '[', 0);
    if bracket.Some? && bracket.value >= 1 then
      var b := bracket.value;
      var close := IndexFrom(spec, ']', b + 1);
      if close.Some? && close.value >= b + 2 && close.value + 1 < |spec| && spec[close.value + 1] == '=' then
        var c := close.value;
        TypedSplit(spec, b, c);
        Some(Typed(spec[..b], spec[b + 1..c], spec[c + 2..]))
      else None
    else None
  }

  lemma TypedSplit(spec: string, b: nat, c: nat)
    requires b + 2 <= c && c + 1 < |spec| && spec[b] == '[' && spec[c] == ']' && spec[c + 1] == '='
    requires forall k :: 0 <= k < b ==> spec[k] != '['
    requires forall k :: b + 1 <= k < c ==> spec[k] != ']'
    ensures spec == spec[..b] + "[" + spec[b + 1..c] + "]=" + spec[c + 2..]
    ensures '[' !in spec[..b] && ']' !in spec[b + 1..c]
  {
    assert spec == spec[..b] + "[" + spec[b + 1..c] + "]=" + spec[c + 2..];
  }

  /** The `name=value` pattern within the first prefixEnd characters. */
  function MatchUntyped(spec: string, prefixEnd: nat): (r: Option<SpecParts>)
    requires prefixEnd <= |spec| && forall k :: 0 <= k < prefixEnd ==> spec[k] != '['
    ensures r.Some? ==>
      r.value.Untyped?
      && spec == r.value.name + "=" + r.value.value && |r.value.name| > 0 && '[' !in r.value.name
  {
    var eq := LastIndexBefore(spec, '=', prefixEnd);
    if eq.Some? && eq.value >= 1 then
      UntypedSplit(spec, eq.value);
      Some(Untyped(spec[..eq.value], spec[eq.value + 1..]))
    else None
  }

  lemma UntypedSplit(spec: string, e: nat)
    requires e < |spec| && spec[e] == '=' && forall k :: 0 <= k < e ==> spec[k] != '['
    ensures spec == spec[..e] + "=" + spec[e + 1..] && '[' !in spec[..e]
  {
    assert spec == spec[..e] + "=" + spec[e + 1..];
  }

  /**
   * fromAttrSpec. A value of '@' and at least one more character names a
   * file; `load` gives that file's content as the attribute value (for
   * ATTR and ATTRLIST, after conversion to JSON), or None when it cannot
   * be read.
   */
  function FromAttrSpec(spec: string, load: string -> Option<string>): (r: Result<Attr, Exception>)
  {
    match MatchSpec(spec)
    case None => Failure(IllegalArgument("Invalid attrSpec " + spec))
    case Some(parts) =>
      var kind := if parts.Typed? then TypeValueOf(parts.typeText) else Some(STRING);
      if kind.None? then
        Failure(IllegalArgument("No enum constant xyz.deszaras.grounds.model.Attr.Type." + parts.typeText))
      else
        var value := parts.value;
        if |value| > 1 && value[0] == '@' then
          match load(value[1..])
          case None => Failure(IllegalArgument("Failed to read attribute value from " + value))
          case Some(content) => Success(Attr(parts.name, content, kind.value))
        else Success(Attr(parts.name, value, kind.value))
  }

  /**
   * Printing a spec and parsing it back gives the attribute, when the name
   * is non-empty and '['-free and the value does not name a file.
   */
  lemma SpecRoundTrip(a: Attr, load: string -> Option<string>)
    requires |a.name| > 0 && '[' !in a.name
    requires !(|a.value| > 1 && a.value[0] == '@')
    ensures FromAttrSpec(ToAttrSpec(a), load) == Success(a)
  {
    TypedSpecMatches(a.name, TypeName(a.kind), a.value);
    TypeNameRoundTrip(a.kind);
  }

  /** A typed spec is split back into its name, type text and value. */
  lemma TypedSpecMatches(name: string, t: string, value: string)
    requires |name| > 0 && '[' !in name && |t| > 0 && ']' !in t
    ensures MatchSpec(name + "[" + t + "]=" + value) == Some(Typed(name, t, value))
  {
    var spec := name + "[" + t + "]=" + value;
    var b := |name|;
    var c := b + 1 + |t|;
    assert spec[b] == '[';
    assert forall k :: 0 <= k < b ==> spec[k] == name[k];
    assert IndexFrom(spec, '[', 0) == Some(b);
    assert spec[c] == ']' && spec[c + 1] == '=';
    assert forall k :: b + 1 <= k < c ==> spec[k] == t[k - b - 1];
    assert IndexFrom(spec, ']', b + 1) == Some(c);
    assert spec[..b] == name;
    assert spec[b + 1..c] == t;
    assert spec[c + 2..] == value;
    assert MatchTyped(spec) == Some(Typed(name, t, value));
  }

  /** A spec without '[' that parses has type STRING and splits at its last '='. */
  lemma UntypedSpec(spec: string, load: string -> Option<string>)
    requires '[' !in spec
    ensures FromAttrSpec(spec, load).Success? ==>
      FromAttrSpec(spec, load).value.kind == STRING
      && exists k :: 0 < k < |spec| && spec[k] == '=' && '=' !in spec[k + 1..]
           && FromAttrSpec(spec, load).value.name == spec[..k]
    ensures ('=' !in spec || (spec[0] == '=' && '=' !in spec[1..])) ==>
      FromAttrSpec(spec, load) == Failure(IllegalArgument("Invalid attrSpec " + spec))
  {
    assert IndexFrom(spec, '[', 0).None?;
    assert MatchSpec(spec) == MatchUntyped(spec, |spec|);
    var eq := LastIndexBefore(spec, '=', |spec|);
    if eq.Some? && eq.value >= 1 {
      var k := eq.value;
      assert '=' !in spec[k + 1..] by {
        assert forall j :: k < j < |spec| ==> spec[j] != '=';
      }
      assert MatchSpec(spec) == Some(Untyped(spec[..k], spec[k + 1..]));
      assert spec[k] in spec && spec[1..][k - 1] == spec[k];
    } else {
      assert MatchSpec(spec).None?;
    }
  }
}
