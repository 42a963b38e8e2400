/**
 * A record builder (util/RecordOutput.java). Fields are key/value pairs
 * added one at a time; a field without a key shows its value alone. The
 * record renders one line per field, keys padded to the width of the
 * longest key so that the values line up.
 *
 * A key is stored coloured (AnsiUtils.color, which is not part of this
 * model): the colouring is the record's `color` function, fixed when the
 * record is created. A Java null key is None.
 */
module RecordOutputModel {
  import opened Base

  /** The stored form of a field's key: coloured with a colon after it, or none. */
  function StoredKey(key: Option<string>, color: string -> string): Option<string>
  {
    if key.Some? then Some(color(key.value + ":")) else None
  }

  /** The length of the longest key, or None when no field has a key. */
  function MaxKeyLength(keys: seq<Option<string>>): (r: Option<nat>)
    ensures r.None? <==> forall i :: 0 <= i < |keys| ==> keys[i].None?
    ensures r.Some? ==> forall i :: 0 <= i < |keys| && keys[i].Some? ==> |keys[i].value| <= r.value
    ensures r.Some? ==> exists i :: 0 <= i < |keys| && keys[i].Some? && |keys[i].value| == r.value
  {
    if |keys| == 0 then None
    else
      var rest := MaxKeyLength(keys[1..]);
      assert forall i :: 1 <= i < |keys| ==> keys[i] == keys[1..][i - 1];
      if keys[0].None? then rest
      else if rest.None? || rest.value < |keys[0].value| then Some(|keys[0].value|)
      else rest
  }

  /**
   * The key column of a keyed line, as "%-w.ws" formats it: a key no longer
   * than w is padded on the right with spaces to exactly w characters.
   */
  function KeyColumn(key: string, width: nat): (r: string)
    requires |key| <= width
    ensures |r| == width && r[..|key|] == key
    ensures forall i :: |key| <= i < width ==> r[i] == ' '
  {
    key + Repeat(' ', width - |key|)
  }

  /**
   * One line of the record: the key column, a space and the value, so that
   * every keyed value starts at the same place; or the value alone.
   */
  function FieldLine(key: Option<string>, value: string, width: nat): (r: string)
    requires key.Some? ==> |key.value| <= width
    ensures key.Some? ==> |r| == width + |value| + 2
    ensures key.Some? ==> r[..|key.value|] == key.value && r[width] == ' ' && r[width + 1..] == value + "\n"
    ensures key.None? ==> r == value + "\n"
  {
    if key.Some? then KeyColumn(key.value, width) + " " + value + "\n" else value + "\n"
  }

  predicate KeysFit(keys: seq<Option<string>>, width: nat)
  {
    forall i :: 0 <= i < |keys| && keys[i].Some? ==> |keys[i].value| <= width
  }

  /** The lines of the first fields, in order. */
  function Lines(keys: seq<Option<string>>, values: seq<string>, width: nat): string
    requires |keys| == |values| && KeysFit(keys, width)
  {
    if |keys| == 0 then ""
    else Lines(keys[..|keys| - 1], values[..|values| - 1], width)
         + FieldLine(keys[|keys| - 1], values[|values| - 1], width)
  }

  /** The rendered record: nothing at all unless some field has a key. */
  function Render(keys: seq<Option<string>>, values: seq<string>): string
    requires |keys| == |values|
  {
    var w := MaxKeyLength(keys);
    if w.None? then "" else Lines(keys, values, w.value)
  }

  /** Each field takes at least one line, ending in a newline. */
  lemma {:induction false} LinesEndInNewline(keys: seq<Option<string>>, values: seq<string>, width: nat)
    requires |keys| == |values| && KeysFit(keys, width)
    ensures |Lines(keys, values, width)| >= |keys|
    ensures |keys| > 0 ==> Lines(keys, values, width)[|Lines(keys, values, width)| - 1] == '\n'
    decreases |keys|
  {
    if |keys| > 0 {
      LinesEndInNewline(keys[..|keys| - 1], values[..|values| - 1], width);
    }
  }

  /** The lines of one more field are the lines so far and that field's line. */
  lemma LinesSnoc(keys: seq<Option<string>>, values: seq<string>, width: nat, i: nat)
    requires |keys| == |values| && KeysFit(keys, width) && i < |keys|
    ensures KeysFit(keys[..i], width) && KeysFit(keys[..i + 1], width)
    ensures Lines(keys[..i + 1], values[..i + 1], width)
         == Lines(keys[..i], values[..i], width) + FieldLine(keys[i], values[i], width)
  {
    assert keys[..i + 1][..i] == keys[..i] && values[..i + 1][..i] == values[..i];
  }

  /** The record renders as nothing exactly when no field has a key. */
  lemma EmptyUnlessKeyed(keys: seq<Option<string>>, values: seq<string>)
    requires |keys| == |values|
    ensures Render(keys, values) == "" <==> forall i :: 0 <= i < |keys| ==> keys[i].None?
  {
    var w := MaxKeyLength(keys);
    if w.Some? {
      LinesEndInNewline(keys, values, w.value);
    }
  }

  /** The message when the two lists of a map differ in length. */
  function SizeMessage(keys: int, values: int): string
  {
    "Spec has " + DecimalString(keys) + " keys but " + DecimalString(values) + " values"
  }

  /** from(map): an empty key in the "keys" list stands for a field without a key. */
  function KeyOf(k: string): Option<string>
  {
    if k != "" then Some(k) else None
  }

  class RecordOutput {
    const color: string -> string
    var keys: seq<Option<string>>
    var values: seq<string>

    ghost predicate Valid()
      reads this
    {
      |keys| == |values|
    }

    constructor (color: string -> string)
      ensures Valid() && keys == [] && values == [] && this.color == color
    {
      this.color := color;
      keys := [];
      values := [];
    }

    /** Adds a field; a None key leaves the value alone on its line. */
    method AddField(key: Option<string>, value: string)
      requires Valid()
      modifies this
      ensures Valid()
      ensures keys == old(keys) + [StoredKey(key, color)]
      ensures values == old(values) + [value]
    {
      keys := keys + [StoredKey(key, color)];
      values := values + [value];
    }

    method AddValue(value: string)
      requires Valid()
      modifies this
      ensures Valid()
      ensures keys == old(keys) + [None] && values == old(values) + [value]
    {
      AddField(None, value);
    }

    /** A blank line is an empty value without a key. */
    method AddBlankLine()
      requires Valid()
      modifies this
      ensures Valid()
      ensures keys == old(keys) + [None] && values == old(values) + [""]
    {
      AddField(None, "");
    }

    method ToString() returns (s: string)
      requires Valid()
      ensures s == Render(keys, values)
    {
      var maxKeyLength := MaxKeyLength(keys);
      if maxKeyLength.None? {
        return "";
      }
      s := AllLines(maxKeyLength.value);
    }

    /** The loop of toString: one line per field, keys padded to the widest. */
    method AllLines(keyColumnSize: nat) returns (b: string)
      requires Valid() && KeysFit(keys, keyColumnSize)
      ensures b == Lines(keys, values, keyColumnSize)
    {
      b := "";
      var numRows := |keys|;
      var i := 0;
      while i < numRows
        invariant 0 <= i <= numRows
        invariant b == Lines(keys[..i], values[..i], keyColumnSize)
      {
        LinesSnoc(keys, values, keyColumnSize, i);
        b := b + FieldLine(keys[i], values[i], keyColumnSize);
        i := i + 1;
      }
      assert keys[..numRows] == keys && values[..numRows] == values;
    }

    /**
     * A record built from a map holding a "keys" list and a "values" list of
     * the same length; a missing map (null) gives an empty record.
     */
    static method From(m: Option<map<string, seq<string>>>, color: string -> string)
      returns (r: Result<RecordOutput, Exception>)
      ensures m.None? ==> r.Success? && fresh(r.value) && r.value.keys == [] && r.value.values == []
      ensures m.Some? && "keys" !in m.value ==>
        r == Failure(IllegalArgument("Map must contain a keys list"))
      ensures m.Some? && "keys" in m.value && "values" !in m.value ==>
        r == Failure(IllegalArgument("Map must contain a values list"))
      ensures m.Some? && "keys" in m.value && "values" in m.value
              && |m.value["keys"]| != |m.value["values"]| ==>
        r == Failure(IllegalArgument(SizeMessage(|m.value["keys"]|, |m.value["values"]|)))
      ensures r.Success? <==>
        m.None? || ("keys" in m.value && "values" in m.value && |m.value["keys"]| == |m.value["values"]|)
      ensures r.Success? ==> fresh(r.value) && r.value.Valid() && r.value.color == color
      ensures r.Success? && m.Some? ==>
        var ks := m.value["keys"];
        |r.value.keys| == |ks| && r.value.values == m.value["values"]
        && forall i :: 0 <= i < |ks| ==> r.value.keys[i] == StoredKey(KeyOf(ks[i]), color)
    {
      var rec := new RecordOutput(color);
      if m.None? {
        return Success(rec);
      }
      if "keys" !in m.value {
        return Failure(IllegalArgument("Map must contain a keys list"));
      }
      if "values" !in m.value {
        return Failure(IllegalArgument("Map must contain a values list"));
      }
      var keys := m.value["keys"];
      var values := m.value["values"];
      if |keys| != |values| {
        return Failure(IllegalArgument(SizeMessage(|keys|, |values|)));
      }
      var i := 0;
      while i < |keys|
        invariant 0 <= i <= |keys|
        invariant rec.Valid() && rec.color == color
        invariant rec.values == values[..i] && |rec.keys| == i
        invariant forall j :: 0 <= j < i ==> rec.keys[j] == StoredKey(KeyOf(keys[j]), color)
      {
        if keys[i] != "" {
          rec.AddField(Some(keys[i]), values[i]);
        } else {
          rec.AddField(None, values[i]);
        }
        assert values[..i + 1] == values[..i] + [values[i]];
        i := i + 1;
      }
      assert values[..|keys|] == values;
      return Success(rec);
    }
  }
}
