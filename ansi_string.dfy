/**
 * A string with ANSI escape codes (util/AnsiString.java). Its length and
 * its characters are those of the visible text, escape codes left out;
 * a substring counts only visible characters but keeps every escape code
 * that comes before its end, and ends with an SGR reset when any of those
 * codes is a CSI code.
 *
 * The escape-code grammar is the one subSequence scans: ESC '[' parameters
 * up to a final character '@'..'~' (CSI); ESC ']' up to BEL or ESC '\'
 * (OSC); ESC '(' or ESC ')' and one more character (character set); ESC
 * and any other character. The visible text is what is left when those
 * codes are removed.
 */
module AnsiStringModel {
  import opened Base

  const ESC: char := '\U{1B}'
  const BEL: char := '\U{7}'
  /** SGR reset with its parameter 0 left out. */
  const RESET: string := [ESC, '[', 'm']

  function Plus(r: Option<nat>, k: nat): Option<nat>
  {
    if r.Some? then Some(r.value + k) else None
  }

  // ---------------------------------------------------------------------
  // Escape codes

  /** After ESC '[': characters up to and including the first one in '@'..'~'. */
  function CsiLen(s: string): (r: Option<nat>)
    ensures r.Some? ==> 1 <= r.value <= |s|
  {
    if |s| == 0 then None
    else if '@' <= s[0] <= '~' then Some(1)
    else Plus(CsiLen(s[1..]), 1)
  }

  /**
   * After ESC ']': characters up to a BEL, or up to an ESC followed by a
   * backslash; an ESC followed by anything else is passed over together
   * with that character.
   */
  function OscLen(s: string): (r: Option<nat>)
    ensures r.Some? ==> 1 <= r.value <= |s|
  {
    if |s| == 0 then None
    else if s[0] == ESC then
      if |s| == 1 then None
      else if s[1] == '\\' then Some(2)
      else Plus(OscLen(s[2..]), 2)
    else if s[0] == BEL then Some(1)
    else Plus(OscLen(s[1..]), 1)
  }

  /** The length of the escape code that starts s, or None when s ends inside it. */
  function CodeLen(s: string): (r: Option<nat>)
    requires |s| >= 1 && s[0] == ESC
    ensures r.Some? ==> 2 <= r.value <= |s|
  {
    if |s| < 2 then None
    else if s[1] == '[' then Plus(CsiLen(s[2..]), 2)
    else if s[1] == ']' then Plus(OscLen(s[2..]), 2)
    else if s[1] == '(' || s[1] == ')' then (if |s| < 3 then None else Some(3))
    else Some(2)
  }

  /** The visible text of s: every escape code removed; a code cut off by the end of s is dropped. */
  function Strip(s: string): (r: string)
    ensures |r| <= |s|
    decreases |s|
  {
    if |s| == 0 then ""
    else if s[0] == ESC then
      match CodeLen(s)
      case None => ""
      case Some(n) => Strip(s[n..])
    else [s[0]] + Strip(s[1..])
  }

  /** The escape codes of s, in order. */
  function Codes(s: string): seq<string>
    decreases |s|
  {
    if |s| == 0 then []
    else if s[0] == ESC then
      match CodeLen(s)
      case None => []
      case Some(n) => [s[..n]] + Codes(s[n..])
    else Codes(s[1..])
  }

  /** s is visible characters and whole escape codes only. */
  predicate Complete(s: string)
    decreases |s|
  {
    if |s| == 0 then true
    else if s[0] == ESC then CodeLen(s).Some? && Complete(s[CodeLen(s).value..])
    else Complete(s[1..])
  }

  /** Does any of the codes start a CSI code? */
  predicate HasCsi(codes: seq<string>)
  {
    exists i :: 0 <= i < |codes| && |codes[i]| >= 2 && codes[i][1] == '['
  }

  /** The escape codes before the n-th visible character of s (none when n is 0). */
  function CodesBefore(s: string, n: nat): (r: seq<string>)
    ensures forall i :: 0 <= i < |r| ==> |r[i]| >= 2 && r[i][0] == ESC
    decreases |s|
  {
    if n == 0 || |s| == 0 then []
    else if s[0] == ESC then
      match CodeLen(s)
      case None => []
      case Some(k) => [s[..k]] + CodesBefore(s[k..], n)
    else CodesBefore(s[1..], n - 1)
  }

  lemma {:induction false} CsiAgree(s: string, t: string, k: nat)
    requires CsiLen(s) == Some(k) && k <= |t| && t[..k] == s[..k]
    ensures CsiLen(t) == Some(k)
    decreases |s|
  {
    assert t[0] == t[..k][0];
    if !('@' <= s[0] <= '~') {
      assert t[1..][..k - 1] == t[..k][1..];
      assert s[1..][..k - 1] == s[..k][1..];
      CsiAgree(s[1..], t[1..], k - 1);
    }
  }

  lemma {:induction false} OscAgree(s: string, t: string, k: nat)
    requires OscLen(s) == Some(k) && k <= |t| && t[..k] == s[..k]
    ensures OscLen(t) == Some(k)
    decreases |s|
  {
    assert t[0] == t[..k][0];
    if s[0] == ESC {
      assert t[1] == t[..k][1];
      if s[1] != '\\' {
        assert t[2..][..k - 2] == t[..k][2..];
        assert s[2..][..k - 2] == s[..k][2..];
        OscAgree(s[2..], t[2..], k - 2);
      }
    } else if s[0] != BEL {
      assert t[1..][..k - 1] == t[..k][1..];
      assert s[1..][..k - 1] == s[..k][1..];
      OscAgree(s[1..], t[1..], k - 1);
    }
  }

  /** An escape code is recognised from its own characters alone, whatever follows it. */
  lemma CodeAgree(s: string, t: string, k: nat)
    requires |s| >= 1 && s[0] == ESC && CodeLen(s) == Some(k)
    requires k <= |t| && t[..k] == s[..k]
    ensures t[0] == ESC && CodeLen(t) == Some(k)
  {
    assert t[0] == t[..k][0] && t[1] == t[..k][1];
    if s[1] == '[' {
      assert t[2..][..k - 2] == t[..k][2..];
      assert s[2..][..k - 2] == s[..k][2..];
      CsiAgree(s[2..], t[2..], k - 2);
    } else if s[1] == ']' {
      assert t[2..][..k - 2] == t[..k][2..];
      assert s[2..][..k - 2] == s[..k][2..];
      OscAgree(s[2..], t[2..], k - 2);
    }
  }

  /** After a string of whole codes and characters, stripping and code listing go piece by piece. */
  lemma {:induction false} StripAppend(a: string, b: string)
    requires Complete(a)
    ensures Strip(a + b) == Strip(a) + Strip(b)
    ensures Codes(a + b) == Codes(a) + Codes(b)
    ensures Complete(b) ==> Complete(a + b)
    decreases |a|
  {
    if |a| == 0 {
      assert a + b == b;
    } else if a[0] == ESC {
      var k := CodeLen(a).value;
      assert (a + b)[..k] == a[..k];
      CodeAgree(a, a + b, k);
      assert (a + b)[k..] == a[k..] + b;
      StripAppend(a[k..], b);
    } else {
      assert (a + b)[1..] == a[1..] + b;
      StripAppend(a[1..], b);
    }
  }

  /** Text without ESC is all visible. */
  lemma {:induction false} PlainText(p: string)
    requires ESC !in p
    ensures Complete(p) && Strip(p) == p && Codes(p) == []
    decreases |p|
  {
    if |p| > 0 {
      assert p[0] in p;
      assert forall c :: c in p[1..] ==> c in p;
      PlainText(p[1..]);
      assert p == [p[0]] + p[1..];
    }
  }

  /** The reset is one whole CSI code with nothing visible. */
  lemma ResetIsCsi()
    ensures CodeLen(RESET) == Some(3)
    ensures Complete(RESET) && Strip(RESET) == "" && Codes(RESET) == [RESET]
  {
    assert RESET[2..] == "m";
    assert RESET[3..] == "";
    assert RESET[..3] == RESET;
  }

  /** An escape code in front of a string adds nothing to its visible text. */
  lemma CodeIsInvisible(code: string, s: string)
    requires |code| >= 1 && code[0] == ESC && CodeLen(code) == Some(|code|)
    ensures Strip(code + s) == Strip(s)
    ensures Codes(code + s) == [code] + Codes(s)
  {
    assert code[|code|..] == "";
    assert code[..|code|] == code;
    StripAppend(code, s);
  }

  // ---------------------------------------------------------------------
  // The substring walk

  /**
   * What subSequence(start, end) copies from the rest s of the original,
   * when idx visible characters have been passed: every escape code and
   * the visible characters numbered start to end - 1, stopping once the
   * end-th visible character has been passed; and whether a CSI code was
   * copied.
   */
  function Walk(s: string, idx: nat, start: nat, end: nat): (string, bool)
    requires idx <= end <= idx + |Strip(s)|
    decreases |s|
  {
    if idx == end then ("", false)
    else if s[0] == ESC then
      match CodeLen(s)
      case None => assert false; ("", false)
      case Some(n) =>
        var w := Walk(s[n..], idx, start, end);
        (s[..n] + w.0, w.1 || s[1] == '[')
    else
      var w := Walk(s[1..], idx + 1, start, end);
      ((if idx >= start then [s[0]] else []) + w.0, w.1)
  }

  /** One escape code in front: it is kept whole and adds nothing visible. */
  lemma CodeStep(s: string, k: nat, rest: string, n: nat)
    requires |s| >= 1 && s[0] == ESC && CodeLen(s) == Some(k) && Complete(rest) && n > 0
    ensures Complete(s[..k] + rest)
    ensures Strip(s[..k] + rest) == Strip(rest)
    ensures Codes(s[..k] + rest) == [s[..k]] + Codes(rest)
    ensures Strip(s) == Strip(s[k..])
    ensures CodesBefore(s, n) == [s[..k]] + CodesBefore(s[k..], n)
  {
    var out := s[..k] + rest;
    assert out[..k] == s[..k];
    CodeAgree(s, out, k);
    assert out[k..] == rest;
  }

  /** A visible character in front adds itself to the visible text and no code. */
  lemma CharStep(c: char, rest: string)
    requires c != ESC && Complete(rest)
    ensures Complete([c] + rest) && Strip([c] + rest) == [c] + Strip(rest) && Codes([c] + rest) == Codes(rest)
  {
    assert ([c] + rest)[1..] == rest;
  }

  lemma CsiStep(code: string, codes: seq<string>, seen: bool)
    requires |code| >= 2 && (seen <==> HasCsi(codes))
    ensures (seen || code[1] == '[') <==> HasCsi([code] + codes)
  {
    var all := [code] + codes;
    if seen {
      var i :| 0 <= i < |codes| && |codes[i]| >= 2 && codes[i][1] == '[';
      assert all[i + 1] == codes[i];
    }
    if code[1] == '[' {
      assert all[0] == code;
    }
    if HasCsi(all) {
      var i :| 0 <= i < |all| && |all[i]| >= 2 && all[i][1] == '[';
      if i > 0 {
        assert codes[i - 1] == all[i];
      }
    }
  }

  /** What the walk promises about its copy of s. */
  predicate WalkOk(s: string, idx: nat, start: nat, end: nat)
    requires idx <= end <= idx + |Strip(s)| && start <= end
  {
    var w := Walk(s, idx, start, end);
    Complete(w.0)
    && Strip(w.0) == Strip(s)[(if start >= idx then start - idx else 0)..end - idx]
    && Codes(w.0) == CodesBefore(s, end - idx)
    && (w.1 <==> HasCsi(CodesBefore(s, end - idx)))
  }

  lemma {:induction false} WalkFacts(s: string, idx: nat, start: nat, end: nat)
    requires idx <= end <= idx + |Strip(s)| && start <= end
    ensures WalkOk(s, idx, start, end)
    decreases |s|
  {
    if idx == end {
    } else if s[0] == ESC {
      var k := CodeLen(s).value;
      WalkFacts(s[k..], idx, start, end);
      WalkOkCode(s, k, idx, start, end);
    } else {
      WalkFacts(s[1..], idx + 1, start, end);
      WalkOkChar(s, idx, start, end);
    }
  }

  /** An escape code in front of the rest keeps the walk's promise. */
  lemma WalkOkCode(s: string, k: nat, idx: nat, start: nat, end: nat)
    requires idx < end <= idx + |Strip(s)| && start <= end
    requires |s| >= 1 && s[0] == ESC && CodeLen(s) == Some(k)
    requires end <= idx + |Strip(s[k..])| && WalkOk(s[k..], idx, start, end)
    ensures WalkOk(s, idx, start, end)
  {
    var w' := Walk(s[k..], idx, start, end);
    CodeStep(s, k, w'.0, end - idx);
    CsiStep(s[..k], CodesBefore(s[k..], end - idx), w'.1);
  }

  /** A visible character in front of the rest keeps the walk's promise. */
  lemma WalkOkChar(s: string, idx: nat, start: nat, end: nat)
    requires idx < end <= idx + |Strip(s)| && start <= end
    requires |s| >= 1 && s[0] != ESC
    requires end <= idx + 1 + |Strip(s[1..])| && WalkOk(s[1..], idx + 1, start, end)
    ensures WalkOk(s, idx, start, end)
  {
    var w' := Walk(s[1..], idx + 1, start, end);
    var n := end - idx;
    var t := Strip(s[1..]);
    assert Walk(s, idx, start, end) == ((if idx >= start then [s[0]] else []) + w'.0, w'.1);
    assert CodesBefore(s, n) == CodesBefore(s[1..], n - 1);
    assert Strip(s) == [s[0]] + t;
    if idx >= start {
      CharStep(s[0], w'.0);
      assert Strip(w'.0) == t[..n - 1];
      VisibleKept(s[0], w'.0, t, n);
    } else {
      assert [] + w'.0 == w'.0;
      ShiftSlice(s[0], t, start - idx, n);
    }
  }

  lemma VisibleKept(c: char, rest: string, t: string, n: nat)
    requires c != ESC && 1 <= n <= |t| + 1 && Strip(rest) == t[..n - 1]
    ensures Strip([c] + rest) == ([c] + t)[..n]
  {
    assert ([c] + rest)[1..] == rest;
    assert [c] + t[..n - 1] == ([c] + t)[..n];
  }

  lemma ShiftSlice(c: char, t: string, lo: nat, hi: nat)
    requires 1 <= lo <= hi <= |t| + 1
    ensures t[lo - 1..hi - 1] == ([c] + t)[lo..hi]
  {
  }

  datatype AnsiString = AnsiString(original: string)
  {
    function Stripped(): string
    {
      Strip(original)
    }

    /** The length counts visible characters only. */
    function Length(): (n: nat)
      ensures n <= |original|
    {
      |Stripped()|
    }

    predicate IsEmpty()
    {
      Length() == 0
    }

    /** The index-th visible character; String.charAt's exception outside the visible text. */
    function CharAt(index: int): (r: Result<char, Exception>)
      ensures r.Success? <==> 0 <= index < Length()
      ensures r.Failure? ==>
        r.error == IndexOutOfBounds("index " + DecimalString(index) + ", length " + DecimalString(Length()))
    {
      if 0 <= index < Length() then Success(Stripped()[index])
      else Failure(IndexOutOfBounds("index " + DecimalString(index) + ", length " + DecimalString(Length())))
    }

    function ToString(): string
    {
      original
    }
  }

  /** Text without escape codes is its own visible text: length and characters are the usual ones. */
  lemma PlainAnsiString(s: string)
    requires ESC !in s
    ensures AnsiString(s).Length() == |s|
    ensures forall i :: 0 <= i < |s| ==> AnsiString(s).CharAt(i) == Success(s[i])
    ensures AnsiString(s).IsEmpty() <==> s == ""
  {
    PlainText(s);
  }

  /** subSequence: the bounds checks, then the walk and a reset when a CSI code was copied. */
  function SubSeq(a: AnsiString, start: int, end: int): Result<AnsiString, Exception>
  {
    if start < 0 then Failure(IndexOutOfBounds("start must be non-negative"))
    else if end < 0 then Failure(IndexOutOfBounds("end must be non-negative"))
    else if end > a.Length() then
      Failure(IndexOutOfBounds("end " + DecimalString(end) + " must not exceed " + DecimalString(a.Length())))
    else if start > end then
      Failure(IndexOutOfBounds("start " + DecimalString(start) + " must not exceed end " + DecimalString(end)))
    else
      var w := Walk(a.original, 0, start, end);
      Success(AnsiString(w.0 + (if w.1 then RESET else "")))
  }

  /**
   * A substring exists exactly for 0 <= start <= end <= length. Its visible
   * text is the visible text from start to end; its escape codes are all
   * those before the end of that range, even those before start, followed
   * by a reset exactly when one of them is a CSI code.
   */
  lemma SubSeqMeaning(a: AnsiString, start: int, end: int)
    ensures SubSeq(a, start, end).Success? <==> 0 <= start <= end <= a.Length()
    ensures SubSeq(a, start, end).Success? ==>
      var b := SubSeq(a, start, end).value;
      var cb := CodesBefore(a.original, end);
      Complete(b.original)
      && b.Stripped() == a.Stripped()[start..end]
      && b.Length() == end - start
      && Codes(b.original) == cb + (if HasCsi(cb) then [RESET] else [])
  {
    if 0 <= start <= end <= a.Length() {
      var w := Walk(a.original, 0, start, end);
      WalkFacts(a.original, 0, start, end);
      ResetIsCsi();
      StripAppend(w.0, if w.1 then RESET else "");
      if !w.1 {
        assert w.0 + "" == w.0;
      }
    }
  }

  /**
   * The copy of subSequence's escape-code scan: given the ESC at o, the
   * index just after the code.
   */
  method ScanCode(s: string, o: nat) returns (e: nat)
    requires o < |s| && s[o] == ESC && CodeLen(s[o..]).Some?
    ensures e == o + CodeLen(s[o..]).value
  {
    assert s[o..][2..] == s[o + 2..];
    var oidx := o + 1;
    var c2 := s[oidx];
    oidx := oidx + 1;
    if c2 == '[' {
      oidx := ScanCsi(s, oidx);
    } else if c2 == ']' {
      oidx := ScanOsc(s, oidx);
    } else if c2 == '(' || c2 == ')' {
      oidx := oidx + 1;
    }
    return oidx;
  }

  /** The CSI loop of the scan: up to and including the final character. */
  method ScanCsi(s: string, from: nat) returns (e: nat)
    requires from <= |s| && CsiLen(s[from..]).Some?
    ensures e == from + CsiLen(s[from..]).value
  {
    ghost var target := from + CsiLen(s[from..]).value;
    var oidx := from;
    var done := false;
    while !done
      invariant from <= oidx <= target
      invariant !done ==> oidx < target && CsiLen(s[oidx..]) == Some(target - oidx)
      invariant done ==> oidx == target
      decreases target - oidx, !done
    {
      var c3 := s[oidx];
      assert s[oidx..][1..] == s[oidx + 1..];
      oidx := oidx + 1;
      done := '@' <= c3 <= '~';
    }
    return oidx;
  }

  /** The OSC loop of the scan: up to a BEL or an ESC '\'. */
  method ScanOsc(s: string, from: nat) returns (e: nat)
    requires from <= |s| && OscLen(s[from..]).Some?
    ensures e == from + OscLen(s[from..]).value
  {
    ghost var target := from + OscLen(s[from..]).value;
    var oidx := from;
    var done := false;
    while !done
      invariant from <= oidx <= target
      invariant !done ==> oidx < target && OscLen(s[oidx..]) == Some(target - oidx)
      invariant done ==> oidx == target
      decreases target - oidx, !done
    {
      OscAt(s, oidx);
      var c3 := s[oidx];
      oidx := oidx + 1;
      if c3 == ESC {
        c3 := s[oidx];
        oidx := oidx + 1;
        done := c3 == '\\';
      } else {
        done := c3 == BEL;
      }
    }
    return oidx;
  }

  /** One step of the OSC scan at index i of s. */
  lemma OscAt(s: string, i: nat)
    requires i <= |s| && OscLen(s[i..]).Some?
    ensures i < |s|
    ensures s[i] == ESC ==> i + 1 < |s|
    ensures s[i] == ESC && s[i + 1] == '\\' ==> OscLen(s[i..]) == Some(2)
    ensures s[i] == ESC && s[i + 1] != '\\' ==> OscLen(s[i..]) == Plus(OscLen(s[i + 2..]), 2)
    ensures s[i] == BEL ==> OscLen(s[i..]) == Some(1)
    ensures s[i] != ESC && s[i] != BEL ==> OscLen(s[i..]) == Plus(OscLen(s[i + 1..]), 1)
  {
    assert s[i..][1..] == s[i + 1..];
    if s[i] == ESC {
      assert s[i..][2..] == s[i + 2..];
    }
  }

  /** subSequence(start, end), walking the original with one index over all characters and one over visible ones. */
  method SubSequence(a: AnsiString, start: int, end: int) returns (r: Result<AnsiString, Exception>)
    ensures r == SubSeq(a, start, end)
  {
    if start < 0 {
      return Failure(IndexOutOfBounds("start must be non-negative"));
    }
    if end < 0 {
      return Failure(IndexOutOfBounds("end must be non-negative"));
    }
    if end > a.Length() {
      return Failure(IndexOutOfBounds("end " + DecimalString(end) + " must not exceed " + DecimalString(a.Length())));
    }
    if start > end {
      return Failure(IndexOutOfBounds("start " + DecimalString(start) + " must not exceed end " + DecimalString(end)));
    }
    var chars, csiCodesSeen := CopyCodesAndRange(a.original, start, end);
    if csiCodesSeen {
      chars := chars + RESET;
    } else {
      assert chars + "" == chars;
    }
    return Success(AnsiString(chars));
  }

  /**
   * The loop of subSequence: every escape code up to the end-th visible
   * character and the visible characters start to end - 1, and whether a
   * CSI code was among the codes.
   */
  method CopyCodesAndRange(s: string, start: nat, end: nat) returns (chars: string, csiCodesSeen: bool)
    requires start <= end <= |Strip(s)|
    ensures (chars, csiCodesSeen) == Walk(s, 0, start, end)
  {
    ghost var whole := Walk(s, 0, start, end);
    chars := "";
    var oidx: nat := 0;
    var idx: nat := 0;
    csiCodesSeen := false;
    assert s[0..] == s;
    while idx < end
      invariant 0 <= oidx <= |s| && idx <= end <= idx + |Strip(s[oidx..])|
      invariant chars + Walk(s[oidx..], idx, start, end).0 == whole.0
      invariant (csiCodesSeen || Walk(s[oidx..], idx, start, end).1) == whole.1
      decreases |s| - oidx
    {
      chars, csiCodesSeen, oidx, idx := CopyNext(s, start, end, chars, csiCodesSeen, oidx, idx);
    }
    assert chars + "" == chars;
  }

  /**
   * One round of the subSequence loop: the escape code at oidx copied whole,
   * or the visible character at oidx copied when it is inside the range.
   * What is copied so far followed by the walk of the rest stays the same.
   */
  method CopyNext(s: string, start: nat, end: nat, chars: string, seen: bool, oidx: nat, idx: nat)
    returns (chars': string, seen': bool, oidx': nat, idx': nat)
    requires oidx <= |s| && idx < end <= idx + |Strip(s[oidx..])|
    ensures oidx < oidx' <= |s| && idx' <= end <= idx' + |Strip(s[oidx'..])|
    ensures chars' + Walk(s[oidx'..], idx', start, end).0 == chars + Walk(s[oidx..], idx, start, end).0
    ensures (seen' || Walk(s[oidx'..], idx', start, end).1) == (seen || Walk(s[oidx..], idx, start, end).1)
  {
    var c := s[oidx];
    if c == ESC {
      NotCut(s[oidx..]);
      var e := ScanCode(s, oidx);
      WalkCodeUnfold(s, oidx, e, idx, start, end);
      ghost var w := Walk(s[e..], idx, start, end);
      assert chars + s[oidx..e] + w.0 == chars + (s[oidx..e] + w.0);
      chars' := chars + s[oidx..e];
      seen' := seen || s[oidx + 1] == '[';
      oidx', idx' := e, idx;
    } else {
      WalkCharUnfold(s, oidx, idx, start, end);
      ghost var w := Walk(s[oidx + 1..], idx + 1, start, end);
      if idx >= start {
        assert chars + [c] + w.0 == chars + ([c] + w.0);
        chars' := chars + [c];
      } else {
        assert [] + w.0 == w.0;
        chars' := chars;
      }
      seen' := seen;
      oidx', idx' := oidx + 1, idx + 1;
    }
  }

  /** A code that still has visible text after it is not cut off by the end of the string. */
  lemma NotCut(r: string)
    requires |r| >= 1 && r[0] == ESC && |Strip(r)| > 0
    ensures CodeLen(r).Some?
  {
  }

  lemma WalkCodeUnfold(s: string, oidx: nat, e: nat, idx: nat, start: nat, end: nat)
    requires oidx < |s| && s[oidx] == ESC && CodeLen(s[oidx..]) == Some(e - oidx)
    requires idx < end <= idx + |Strip(s[oidx..])|
    ensures oidx < e <= |s| && end <= idx + |Strip(s[e..])|
    ensures Walk(s[oidx..], idx, start, end)
      == (s[oidx..e] + Walk(s[e..], idx, start, end).0, Walk(s[e..], idx, start, end).1 || s[oidx + 1] == '[')
  {
    var rest := s[oidx..];
    assert rest[..e - oidx] == s[oidx..e] && rest[e - oidx..] == s[e..];
  }

  lemma WalkCharUnfold(s: string, oidx: nat, idx: nat, start: nat, end: nat)
    requires oidx < |s| && s[oidx] != ESC
    requires idx < end <= idx + |Strip(s[oidx..])|
    ensures end <= idx + 1 + |Strip(s[oidx + 1..])|
    ensures Walk(s[oidx..], idx, start, end)
      == ((if idx >= start then [s[oidx]] else []) + Walk(s[oidx + 1..], idx + 1, start, end).0,
          Walk(s[oidx + 1..], idx + 1, start, end).1)
  {
    assert s[oidx..][1..] == s[oidx + 1..];
  }

  // ---------------------------------------------------------------------
  // Formatting with %s

  /** The text kept by the precision: all of it for -1 or a precision above the length. */
  function Truncated(a: AnsiString, precision: int): Result<AnsiString, Exception>
  {
    if precision == -1 || a.Length() < precision then Success(a) else SubSeq(a, 0, precision)
  }

  /** b with count spaces after it (left-justified) or before it; nothing for count <= 0. */
  function Pad(b: string, count: int, left: bool): string
  {
    if count <= 0 then b
    else if left then b + Repeat(' ', count)
    else Repeat(' ', count) + b
  }

  /** formatTo as written: the padding is counted from the length before truncation. */
  function FormatAsWritten(a: AnsiString, leftJustify: bool, width: int, precision: int): Result<string, Exception>
  {
    match Truncated(a, precision)
    case Failure(e) => Failure(e)
    case Success(t) => Success(Pad(t.original, width - a.Length(), leftJustify))
  }

  /** formatTo as intended: the padding is counted from the visible length of the truncated text. */
  function Format(a: AnsiString, leftJustify: bool, width: int, precision: int): Result<string, Exception>
  {
    match Truncated(a, precision)
    case Failure(e) => Failure(e)
    case Success(t) => Success(Pad(t.original, width - t.Length(), leftJustify))
  }

  /**
   * formatTo(formatter, flags, width, precision), with the LEFT_JUSTIFY bit
   * of flags as leftJustify; the text it hands to the formatter.
   */
  method FormatTo(a: AnsiString, leftJustify: bool, width: int, precision: int) returns (r: Result<string, Exception>)
    ensures r == FormatAsWritten(a, leftJustify, width, precision)
  {
    var b: string;
    if precision == -1 || a.Length() < precision {
      b := a.ToString();
    } else {
      var sub := SubSequence(a, 0, precision);
      if sub.Failure? {
        return Failure(sub.error);
      }
      b := sub.value.ToString();
    }
    var len := a.Length();
    b := PadSpaces(b, width - len, leftJustify);
    return Success(b);
  }

  /** The padding loop of formatTo: count spaces appended or inserted one at a time. */
  method PadSpaces(b0: string, count: int, leftJustify: bool) returns (b: string)
    ensures b == Pad(b0, count, leftJustify)
  {
    b := b0;
    if 0 < count {
      var i := 0;
      ghost var spaces := "";
      while i < count
        invariant 0 <= i <= count
        invariant spaces == Repeat(' ', i)
        invariant leftJustify ==> b == b0 + spaces
        invariant !leftJustify ==> b == spaces + b0
      {
        RepeatSnoc(' ', i);
        if leftJustify {
          b := b + " ";
        } else {
          b := " " + b;
        }
        spaces := spaces + " ";
        i := i + 1;
      }
    }
  }

  lemma RepeatSnoc(c: char, n: nat)
    ensures Repeat(c, n + 1) == Repeat(c, n) + [c] && Repeat(c, n + 1) == [c] + Repeat(c, n)
  {
    assert Repeat(c, n + 1) == Repeat(c, n) + [c];
  }

  /** Only a precision below -1 is refused; otherwise the visible text is cut to the precision. */
  lemma TruncatedMeaning(a: AnsiString, precision: int)
    ensures Truncated(a, precision).Failure? <==> precision < -1
    ensures Truncated(a, precision).Success? ==>
      var t := Truncated(a, precision).value;
      t.Stripped() == a.Stripped()[..if precision == -1 || a.Length() < precision then a.Length() else precision]
  {
    SubSeqMeaning(a, 0, precision);
  }

  lemma PadVisible(b: string, count: int, left: bool)
    requires Complete(b)
    ensures count <= 0 ==> Strip(Pad(b, count, left)) == Strip(b)
    ensures count > 0 && left ==> Strip(Pad(b, count, left)) == Strip(b) + Repeat(' ', count)
    ensures count > 0 && !left ==> Strip(Pad(b, count, left)) == Repeat(' ', count) + Strip(b)
  {
    if count > 0 {
      var sp := Repeat(' ', count);
      PlainText(sp);
      StripAppend(sp, b);
      StripAppend(b, sp);
    }
  }

  /** Padding to a width keeps the visible text whole, at the left or the right end. */
  lemma PadToWidth(b: string, width: int, left: bool)
    requires Complete(b)
    ensures var n := |Strip(b)|;
      var out := Strip(Pad(b, width - n, left));
      |out| == (if width > n then width else n)
      && (left ==> out[..n] == Strip(b))
      && (!left ==> out[|out| - n..] == Strip(b))
  {
    PadVisible(b, width - |Strip(b)|, left);
  }

  /**
   * As intended, the visible text is the truncated text padded with spaces
   * to at least the width, on the right when left-justified and otherwise
   * on the left.
   */
  lemma FormatWidth(a: AnsiString, leftJustify: bool, width: int, precision: int)
    requires Complete(a.original) && precision >= -1
    ensures Format(a, leftJustify, width, precision).Success?
    ensures var t := Truncated(a, precision).value;
      var out := Strip(Format(a, leftJustify, width, precision).value);
      |out| == (if width > t.Length() then width else t.Length())
      && (leftJustify ==> out[..t.Length()] == t.Stripped())
      && (!leftJustify ==> out[|out| - t.Length()..] == t.Stripped())
  {
    var t := TruncatedComplete(a, precision);
    assert Format(a, leftJustify, width, precision) == Success(Pad(t.original, width - t.Length(), leftJustify));
    PadToWidth(t.original, width, leftJustify);
  }

  lemma TruncatedComplete(a: AnsiString, precision: int) returns (t: AnsiString)
    requires Complete(a.original) && precision >= -1
    ensures Truncated(a, precision) == Success(t) && Complete(t.original)
  {
    if precision == -1 || a.Length() < precision {
      t := a;
    } else {
      SubSeqMeaning(a, 0, precision);
      t := SubSeq(a, 0, precision).value;
    }
  }

  /** Without truncation the two agree: the fault is only in the truncated case. */
  lemma AsWrittenUntruncated(a: AnsiString, leftJustify: bool, width: int, precision: int)
    requires precision == -1 || a.Length() < precision
    ensures FormatAsWritten(a, leftJustify, width, precision) == Format(a, leftJustify, width, precision)
  {
  }

  /** Over text without ESC, the walk from the start copies a plain prefix and sees no CSI code. */
  lemma {:induction false} PlainWalk(p: string, idx: nat, start: nat, end: nat)
    requires ESC !in p && start <= idx <= end <= idx + |p|
    ensures Strip(p) == p && Walk(p, idx, start, end) == (p[..end - idx], false)
    decreases |p|
  {
    PlainText(p);
    if idx < end {
      assert p[0] in p;
      assert forall c :: c in p[1..] ==> c in p;
      PlainWalk(p[1..], idx + 1, start, end);
      assert p[..end - idx] == [p[0]] + p[1..][..end - (idx + 1)];
    }
  }

  /** For text without ESC, a precision inside the text keeps that many characters. */
  lemma PlainTruncated(p: string, precision: nat)
    requires ESC !in p && precision <= |p|
    ensures Truncated(AnsiString(p), precision) == Success(AnsiString(p[..precision]))
    ensures AnsiString(p).Length() == |p| && AnsiString(p[..precision]).Length() == precision
  {
    PlainWalk(p, 0, 0, precision);
    assert p[..precision] + "" == p[..precision];
    assert forall c :: c in p[..precision] ==> c in p;
    PlainText(p[..precision]);
  }

  /** As written, "%5.2s" of "abcdef" gives "ab": two columns wide, not five. */
  lemma AsWrittenPadsShort()
    ensures FormatAsWritten(AnsiString("abcdef"), false, 5, 2) == Success("ab")
    ensures Format(AnsiString("abcdef"), false, 5, 2) == Success("   ab")
  {
    PlainTruncated("abcdef", 2);
    assert "abcdef"[..2] == "ab";
    assert Repeat(' ', 3) == "   ";
    assert Pad("ab", 3, false) == "   ab";
  }
}
