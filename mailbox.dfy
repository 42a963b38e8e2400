/**
 * A mailbox (mail/Mailbox.java): a thing whose contents are the ids of the
 * missives delivered to it. Messages are numbered from 1 in reverse
 * chronological order, newest first. A missive's timestamp is looked up in
 * the current universe; here it is the function `stamp`.
 */
module MailboxModel {
  import opened Base
  import opened ThingModel

  function Elems(s: seq<string>): set<string>
  {
    set x | x in s
  }

  predicate Distinct(s: seq<string>)
  {
    forall i, j :: 0 <= i < j < |s| ==> s[i] != s[j]
  }

  predicate NewestFirst(s: seq<string>, stamp: string -> int)
  {
    forall i, j :: 0 <= i < j < |s| ==> stamp(s[i]) >= stamp(s[j])
  }

  /** A listing of the ids in `contents`, each once, newest first. */
  predicate ReverseChrono(list: seq<string>, contents: set<string>, stamp: string -> int)
  {
    Distinct(list) && Elems(list) == contents && NewestFirst(list, stamp)
  }

  /** The messages strictly newer than time t. */
  function Newer(contents: set<string>, stamp: string -> int, t: int): set<string>
  {
    set y | y in contents && stamp(y) > t
  }

  /** The messages no older than time t. */
  function NotOlder(contents: set<string>, stamp: string -> int, t: int): set<string>
  {
    set y | y in contents && stamp(y) >= t
  }

  lemma {:induction false} DistinctCard(s: seq<string>)
    requires Distinct(s)
    ensures |Elems(s)| == |s|
  {
    if |s| > 0 {
      var init := s[..|s| - 1];
      assert Elems(s) == Elems(init) + {s[|s| - 1]};
      assert s[|s| - 1] !in Elems(init);
      DistinctCard(init);
    }
  }

  /**
   * The message at position k of a reverse chronological listing has fewer
   * than k + 1 strictly newer messages, and at least k + 1 no older than it
   * (itself included): with distinct timestamps, exactly k are newer.
   */
  lemma RankInListing(list: seq<string>, contents: set<string>, stamp: string -> int, k: int)
    requires ReverseChrono(list, contents, stamp) && 0 <= k < |list|
    ensures |Newer(contents, stamp, stamp(list[k]))| <= k
    ensures k + 1 <= |NotOlder(contents, stamp, stamp(list[k]))|
  {
    var t := stamp(list[k]);
    var before := list[..k];
    var upTo := list[..k + 1];
    forall y | y in Newer(contents, stamp, t)
      ensures y in Elems(before)
    {
      var j :| 0 <= j < |list| && list[j] == y;
      assert before[j] == y;
    }
    assert Distinct(before);
    DistinctCard(before);
    SubsetCard(Newer(contents, stamp, t), Elems(before));
    assert Distinct(upTo);
    DistinctCard(upTo);
    forall y | y in Elems(upTo)
      ensures y in NotOlder(contents, stamp, t)
    {
      var j :| 0 <= j < |upTo| && upTo[j] == y;
      assert list[j] == y;
    }
    SubsetCard(Elems(upTo), NotOlder(contents, stamp, t));
  }

  /**
   * Part way through the listing: `list` holds, newest first, the messages
   * taken so far, and none of the `remaining` ones is newer than any of them.
   */
  ghost predicate Listing(list: seq<string>, remaining: set<string>, contents: set<string>, stamp: string -> int)
  {
    remaining <= contents && Elems(list) == contents - remaining
    && Distinct(list) && NewestFirst(list, stamp)
    && forall i, y :: 0 <= i < |list| && y in remaining ==> stamp(y) <= stamp(list[i])
  }

  /** Taking a newest remaining message keeps the listing in order. */
  lemma ListNewest(list: seq<string>, remaining: set<string>, contents: set<string>, stamp: string -> int, x: string)
    requires Listing(list, remaining, contents, stamp)
    requires x in remaining && forall y :: y in remaining ==> stamp(y) <= stamp(x)
    ensures Listing(list + [x], remaining - {x}, contents, stamp)
  {
    assert Elems(list + [x]) == Elems(list) + {x};
  }

  /** A finite non-empty set of messages has a newest one. */
  lemma {:induction false} HasNewest(s: set<string>, stamp: string -> int)
    requires s != {}
    ensures exists x :: x in s && forall y :: y in s ==> stamp(y) <= stamp(x)
    decreases |s|
  {
    var a :| a in s;
    if s != {a} {
      HasNewest(s - {a}, stamp);
      var b :| b in s - {a} && forall y :: y in s - {a} ==> stamp(y) <= stamp(b);
      if stamp(a) > stamp(b) {
        assert forall y :: y in s ==> stamp(y) <= stamp(a);
      } else {
        assert forall y :: y in s ==> stamp(y) <= stamp(b);
      }
    } else {
      assert forall y :: y in s ==> stamp(y) <= stamp(a);
    }
  }

  class Mailbox {
    const t: Thing

    constructor (t: Thing)
      ensures this.t == t
    {
      this.t := t;
    }

    function Size(): (n: nat)
      reads t
      ensures n == |t.contents|
    {
      |t.contents|
    }

    /** Delivers a missive; a missive already present is not delivered again. */
    method Deliver(missive: string) returns (delivered: bool)
      modifies t
      ensures delivered <==> missive !in old(t.contents)
      ensures t.contents == old(t.contents) + {missive} && t.attrs == old(t.attrs)
      ensures Size() == old(Size()) + (if delivered then 1 else 0)
    {
      delivered := missive !in t.contents;
      if !delivered {
        assert t.contents + {missive} == t.contents;
      }
      t.Give(missive);
    }

    /** Deletes a missive; one that is absent is reported as not deleted. */
    method Delete(missive: string) returns (deleted: bool)
      modifies t
      ensures deleted <==> missive in old(t.contents)
      ensures t.contents == old(t.contents) - {missive} && t.attrs == old(t.attrs)
      ensures Size() == old(Size()) - (if deleted then 1 else 0)
    {
      deleted := missive in t.contents;
      t.Take(missive);
    }

    /** Every message, newest first (messages stamped alike in any order). */
    method GetAllInReverseChronoOrder(stamp: string -> int) returns (list: seq<string>)
      ensures ReverseChrono(list, t.contents, stamp)
      ensures |list| == Size()
    {
      list := [];
      var remaining := t.contents;
      while remaining != {}
        invariant Listing(list, remaining, t.contents, stamp)
        invariant |list| + |remaining| == |t.contents|
        decreases |remaining|
      {
        HasNewest(remaining, stamp);
        var x :| x in remaining && forall y :: y in remaining ==> stamp(y) <= stamp(x);
        ListNewest(list, remaining, t.contents, stamp, x);
        list := list + [x];
        remaining := remaining - {x};
      }
    }

    /**
     * The num-th newest message, or nothing when there are fewer; a
     * non-positive number is refused.
     */
    method Get(num: int, stamp: string -> int) returns (r: Result<Option<string>, Exception>)
      ensures num < 1 <==> r == Failure(IllegalArgument("Number must be positive"))
      ensures num > Size() && num >= 1 ==> r == Success(None)
      ensures 1 <= num <= Size() ==>
        r.Success? && r.value.Some? && r.value.value in t.contents
        && |Newer(t.contents, stamp, stamp(r.value.value))| < num
        && num <= |NotOlder(t.contents, stamp, stamp(r.value.value))|
    {
      if num < 1 {
        return Failure(IllegalArgument("Number must be positive"));
      }
      var missives := GetAllInReverseChronoOrder(stamp);
      if |missives| < num {
        return Success(None);
      }
      RankInListing(missives, t.contents, stamp, num - 1);
      return Success(Some(missives[num - 1]));
    }

    /**
     * Deletes the num-th newest message; the number must name one of the
     * messages.
     */
    method DeleteNumbered(num: int, stamp: string -> int) returns (err: Option<Exception>)
      modifies t
      ensures t.attrs == old(t.attrs)
      ensures num < 1 ==> err == Some(IllegalArgument("Number must be positive")) && t.contents == old(t.contents)
      ensures num >= 1 && num > old(Size()) ==>
        err == Some(IllegalArgument("Number must be no more than " + DecimalString(old(Size()))))
        && t.contents == old(t.contents)
      ensures err.None? <==> 1 <= num <= old(Size())
      ensures err.None? ==>
        exists m :: m in old(t.contents) && t.contents == old(t.contents) - {m}
          && |Newer(old(t.contents), stamp, stamp(m))| < num
          && num <= |NotOlder(old(t.contents), stamp, stamp(m))|
    {
      if num < 1 {
        return Some(IllegalArgument("Number must be positive"));
      }
      if num > Size() {
        return Some(IllegalArgument("Number must be no more than " + DecimalString(Size())));
      }
      var missives := GetAllInReverseChronoOrder(stamp);
      RankInListing(missives, t.contents, stamp, num - 1);
      var m := missives[num - 1];
      var _ := Delete(m);
      return None;
    }
  }
}
