/** The string operations the codecs are built from: trimming, splitting, padding. */
module Text {

  /** What `trim` removes: white space and line terminators. */
  predicate IsSpace(c: char) {
    var n := c as int;
    || 9 <= n <= 13 || n == 32 || n == 0xA0 || n == 0x1680 || 0x2000 <= n <= 0x200A
    || n == 0x2028 || n == 0x2029 || n == 0x202F || n == 0x205F || n == 0x3000 || n == 0xFEFF
  }

  function TrimStart(s: string): string {
    if s != [] && IsSpace(s[0]) then TrimStart(s[1..]) else s
  }

  function TrimEnd(s: string): string {
    if s != [] && IsSpace(s[|s| - 1]) then TrimEnd(s[..|s| - 1]) else s
  }

  function Trim(s: string): string {
    TrimEnd(TrimStart(s))
  }

  lemma TrimPlain(s: string)
    requires s == [] || (!IsSpace(s[0]) && !IsSpace(s[|s| - 1]))
    ensures Trim(s) == s
  {
  }

  /** What counts as blank: the white space and line ends of ECMAScript. */
  const BLANKS: set<char> := {'\t', '\n', '\U{000B}', '\U{000C}', '\r', ' ', '\U{00A0}', '\U{1680}', '\U{2000}',
    '\U{2001}', '\U{2002}', '\U{2003}', '\U{2004}', '\U{2005}', '\U{2006}', '\U{2007}', '\U{2008}', '\U{2009}',
    '\U{200A}', '\U{2028}', '\U{2029}', '\U{202F}', '\U{205F}', '\U{3000}', '\U{FEFF}'}

  lemma BlankIff(c: char)
    ensures IsSpace(c) <==> c in BLANKS
  {
  }

  lemma {:induction false} StartTaken(before: string, s: string)
    requires forall i | 0 <= i < |before| :: before[i] in BLANKS
    ensures TrimStart(before + s) == TrimStart(s)
  {
    if before == [] {
      assert before + s == s;
    } else {
      BlankIff(before[0]);
      assert (before + s)[1..] == before[1..] + s;
      StartTaken(before[1..], s);
    }
  }

  lemma {:induction false} EndTaken(s: string, after: string)
    requires forall i | 0 <= i < |after| :: after[i] in BLANKS
    ensures TrimEnd(s + after) == TrimEnd(s)
  {
    if after == [] {
      assert s + after == s;
    } else {
      BlankIff(after[|after| - 1]);
      assert (s + after)[..|s + after| - 1] == s + after[..|after| - 1];
      EndTaken(s, after[..|after| - 1]);
    }
  }

  /** Blanks around a text are taken off, and nothing else. */
  lemma {:induction false} TrimPadded(before: string, s: string, after: string)
    requires (forall i | 0 <= i < |before| :: before[i] in BLANKS) && forall i | 0 <= i < |after| :: after[i] in BLANKS
    requires s != "" ==> s[0] !in BLANKS && s[|s| - 1] !in BLANKS
    ensures Trim(before + s + after) == s
  {
    StartTaken(before, s + after);
    assert before + (s + after) == before + s + after;
    if s == "" {
      StartTaken(after, "");
      assert "" + after == after && after + "" == after;
    } else {
      BlankIff(s[0]);
      BlankIff(s[|s| - 1]);
      assert TrimStart(s + after) == s + after;
      EndTaken(s, after);
    }
  }

  function Repeat(c: char, n: nat): (s: string)
    ensures |s| == n && forall i | 0 <= i < n :: s[i] == c
  {
    if n == 0 then "" else [c] + Repeat(c, n - 1)
  }

  lemma Assoc(a: string, b: string, c: string)
    ensures (a + b) + c == a + (b + c)
  {
  }

  lemma {:induction false} RepeatJoins(c: char, m: nat, n: nat)
    ensures Repeat(c, m) + Repeat(c, n) == Repeat(c, m + n)
  {
  }

  function PadStart(s: string, width: nat, c: char): string {
    if |s| >= width then s else Repeat(c, width - |s|) + s
  }

  function PadEnd(s: string, width: nat, c: char): string {
    if |s| >= width then s else s + Repeat(c, width - |s|)
  }

  /** `replace(/^0+/, "")` for any character. */
  function StripStart(s: string, c: char): string {
    if s != [] && s[0] == c then StripStart(s[1..], c) else s
  }

  /** `replace(/0+$/, "")` for any character. */
  function StripEnd(s: string, c: char): string {
    if s != [] && s[|s| - 1] == c then StripEnd(s[..|s| - 1], c) else s
  }

  lemma {:induction false} StripEndPrefix(s: string, c: char)
    ensures StripEnd(s, c) <= s
  {
    if s != [] && s[|s| - 1] == c { StripEndPrefix(s[..|s| - 1], c); }
  }

  lemma PadOneMore(kept: string, c: char, n: nat)
    ensures kept + Repeat(c, n + 1) == kept + Repeat(c, n) + [c]
  {
    RepeatMore(c, n);
  }

  /** What was stripped from the end can be padded back. */
  lemma {:induction false} StripEndPads(s: string, c: char)
    ensures |StripEnd(s, c)| <= |s| && StripEnd(s, c) == s[..|StripEnd(s, c)|]
    ensures StripEnd(s, c) + Repeat(c, |s| - |StripEnd(s, c)|) == s
  {
    StripEndPrefix(s, c);
    if s != [] && s[|s| - 1] == c {
      var t := s[..|s| - 1];
      StripEndPads(t, c);
      assert s == t + [c];
      PadOneMore(StripEnd(t, c), c, |t| - |StripEnd(t, c)|);
    } else {
      assert s + "" == s;
    }
  }

  lemma StripPads(s: string, shown: string, c: char)
    requires shown == s || shown == StripEnd(s, c)
    ensures |shown| <= |s| && s == shown + Repeat(c, |s| - |shown|)
  {
    StripEndPads(s, c);
    if shown == s {
      assert Repeat(c, 0) == "" && s + "" == s;
    }
  }

  lemma PadMore(s: string, shown: string, c: char, width: nat)
    requires |shown| <= |s| <= width && s == shown + Repeat(c, |s| - |shown|)
    ensures s + Repeat(c, width - |s|) == shown + Repeat(c, width - |shown|)
  {
    var gap, more: nat := |s| - |shown|, width - |s|;
    RepeatJoins(c, gap, more);
    Assoc(shown, Repeat(c, gap), Repeat(c, more));
    assert gap + more == width - |shown|;
  }

  lemma PadEndIs(shown: string, width: nat, c: char)
    requires |shown| <= width
    ensures PadEnd(shown, width, c) == shown + Repeat(c, width - |shown|)
  {
    if |shown| == width {
      assert Repeat(c, 0) == "" && shown + "" == shown;
    }
  }

  /** Text with a trailing run dropped or not, padded to a width: the text, padded. */
  lemma StripPadEnd(s: string, shown: string, c: char, width: nat)
    requires (shown == s || shown == StripEnd(s, c)) && |s| <= width
    ensures |shown| <= |s| && PadEnd(shown, width, c) == s + Repeat(c, width - |s|)
  {
    StripPads(s, shown, c);
    PadMore(s, shown, c, width);
    PadEndIs(shown, width, c);
  }

  lemma {:induction false} StripStartPads(s: string, c: char)
    ensures |StripStart(s, c)| <= |s|
    ensures Repeat(c, |s| - |StripStart(s, c)|) + StripStart(s, c) == s
  {
    if s != [] && s[0] == c {
      StripStartPads(s[1..], c);
      assert s == [c] + s[1..];
    }
  }

  lemma {:induction false} StripStartPadded(c: char, n: nat, s: string)
    requires s == [] || s[0] != c
    ensures StripStart(Repeat(c, n) + s, c) == s
  {
    if n == 0 {
      assert Repeat(c, n) + s == s;
    } else {
      assert (Repeat(c, n) + s)[1..] == Repeat(c, n - 1) + s;
      StripStartPadded(c, n - 1, s);
    }
  }

  lemma RepeatMore(c: char, n: nat)
    ensures Repeat(c, n + 1) == Repeat(c, n) + [c]
  {
  }

  /** `split` on one character: always at least one part. */
  function Split(s: string, c: char): (parts: seq<string>)
    ensures |parts| >= 1
  {
    if s == [] then [""]
    else if s[0] == c then [""] + Split(s[1..], c)
    else
      var rest := Split(s[1..], c);
      [[s[0]] + rest[0]] + rest[1..]
  }

  function Join(parts: seq<string>, c: char): string {
    if parts == [] then "" else if |parts| == 1 then parts[0] else parts[0] + [c] + Join(parts[1..], c)
  }

  lemma {:induction false} SplitNone(s: string, c: char)
    requires c !in s
    ensures Split(s, c) == [s]
  {
    if s != [] {
      SplitNone(s[1..], c);
      assert s == [s[0]] + s[1..];
    }
  }

  lemma {:induction false} SplitFirst(a: string, c: char, b: string)
    requires c !in a
    ensures Split(a + [c] + b, c) == [a] + Split(b, c)
  {
    var s := a + [c] + b;
    if a == [] {
      assert s[1..] == b;
    } else {
      assert s[1..] == a[1..] + [c] + b;
      SplitFirst(a[1..], c, b);
      assert a == [a[0]] + a[1..];
    }
  }

  lemma {:induction false} JoinSplit(s: string, c: char)
    ensures Join(Split(s, c), c) == s
  {
    if s != [] {
      JoinSplit(s[1..], c);
      var rest := Split(s[1..], c);
      if s[0] == c {
        assert ([""] + rest)[1..] == rest;
      } else {
        var parts := [[s[0]] + rest[0]] + rest[1..];
        assert parts[1..] == rest[1..];
      }
    }
  }
}
