/** The few functions of Go's strings package the service uses, on ASCII text. */
module Strings {

  function UpperChar(c: char): (u: char)
    ensures !('a' <= u <= 'z')
    ensures if 'a' <= c <= 'z' then c as int - u as int == 32 else u == c
  {
    if 'a' <= c <= 'z' then 'A' + (c - 'a') else c
  }

  // strings.ToUpper
  function ToUpper(s: string): (u: string)
    ensures |u| == |s|
    ensures forall i :: 0 <= i < |s| ==> u[i] == UpperChar(s[i])
  {
    seq(|s|, i requires 0 <= i < |s| => UpperChar(s[i]))
  }

  predicate IsSpace(c: char) {
    c == ' ' || c == '\t' || c == '\n' || c == '\r' || c == 11 as char || c == 12 as char
  }

  // strings.TrimSpace
  function TrimSpace(s: string): (t: string)
    ensures t == "" || (!IsSpace(t[0]) && !IsSpace(t[|t| - 1]))
    ensures |t| <= |s|
  {
    if s == "" then s
    else if IsSpace(s[0]) then TrimSpace(s[1..])
    else if IsSpace(s[|s| - 1]) then TrimSpace(s[..|s| - 1])
    else s
  }

  // strings.EqualFold
  predicate EqualFold(a: string, b: string) {
    ToUpper(a) == ToUpper(b)
  }

  lemma ToUpperTwice(s: string)
    ensures ToUpper(ToUpper(s)) == ToUpper(s)
  {
  }

  // ---------- what they mean ----------

  // Equal, or one letter in its two cases
  predicate SameLetter(a: char, b: char) {
    a == b || ('a' <= a <= 'z' && a as int - b as int == 32) || ('a' <= b <= 'z' && b as int - a as int == 32)
  }

  // Equal up to case
  predicate SameLetters(a: string, b: string) {
    |a| == |b| && forall i :: 0 <= i < |a| ==> SameLetter(a[i], b[i])
  }

  lemma FoldIff(a: string, b: string)
    ensures EqualFold(a, b) <==> SameLetters(a, b)
  {
    if SameLetters(a, b) {
      assert forall i :: 0 <= i < |a| ==> ToUpper(a)[i] == ToUpper(b)[i];
    }
    if EqualFold(a, b) {
      assert |a| == |ToUpper(a)| == |b|;
      forall i | 0 <= i < |a| ensures SameLetter(a[i], b[i]) {
        assert ToUpper(a)[i] == ToUpper(b)[i];
      }
    }
  }

  // Nothing but blanks: the space, and the codes from tab to carriage return
  predicate Blank(s: string) {
    forall i :: 0 <= i < |s| ==> IsBlank(s[i])
  }

  predicate IsBlank(c: char) {
    c == ' ' || 9 <= c as int <= 13
  }

  predicate NoBlankEnds(s: string) {
    s != "" ==> !IsBlank(s[0]) && !IsBlank(s[|s| - 1])
  }

  // The text t stands in s at n, with nothing but blanks around it.
  predicate AmongBlanks(s: string, t: string, n: nat) {
    n + |t| <= |s| && s[n..n + |t|] == t && Blank(s[..n]) && Blank(s[n + |t|..])
  }

  // Exactly the surrounding blanks go.
  lemma TrimSpaceIff(s: string, t: string)
    ensures TrimSpace(s) == t <==> NoBlankEnds(t) && exists n: nat :: AmongBlanks(s, t, n)
  {
    hide TrimSpace, AmongBlanks;
    var n := Trimmed(s);
    if NoBlankEnds(t) && exists n: nat :: AmongBlanks(s, t, n) {
      var n: nat :| AmongBlanks(s, t, n);
      TrimSpaceOf(s, t, n);
    }
  }

  lemma {:induction false} Trimmed(s: string) returns (n: nat)
    ensures NoBlankEnds(TrimSpace(s)) && AmongBlanks(s, TrimSpace(s), n)
    decreases |s|
  {
    hide TrimSpace, AmongBlanks, Blank;
    if s == "" {
      TrimNone(s);
      n := 0;
    } else if IsSpace(s[0]) {
      TrimFront(s);
      n := Trimmed(s[1..]);
      AddFront(s, TrimSpace(s), n);
      n := n + 1;
    } else if IsSpace(s[|s| - 1]) {
      TrimBack(s);
      n := Trimmed(s[..|s| - 1]);
      AddBack(s, TrimSpace(s), n);
    } else {
      TrimNone(s);
      n := 0;
    }
  }

  lemma TrimFront(s: string)
    requires s != "" && IsSpace(s[0])
    ensures TrimSpace(s) == TrimSpace(s[1..])
  {
  }

  lemma TrimBack(s: string)
    requires s != "" && !IsSpace(s[0]) && IsSpace(s[|s| - 1])
    ensures TrimSpace(s) == TrimSpace(s[..|s| - 1])
  {
  }

  lemma TrimNone(s: string)
    requires s != "" ==> !IsSpace(s[0]) && !IsSpace(s[|s| - 1])
    ensures TrimSpace(s) == s && NoBlankEnds(s) && AmongBlanks(s, s, 0)
  {
  }

  lemma AddFront(s: string, t: string, n: nat)
    requires s != "" && IsBlank(s[0]) && AmongBlanks(s[1..], t, n)
    ensures AmongBlanks(s, t, n + 1)
  {
    assert s[n + 1..n + 1 + |t|] == s[1..][n..n + |t|];
    assert s[n + 1 + |t|..] == s[1..][n + |t|..];
    assert s[..n + 1] == [s[0]] + s[1..][..n];
  }

  lemma AddBack(s: string, t: string, n: nat)
    requires s != "" && IsBlank(s[|s| - 1]) && AmongBlanks(s[..|s| - 1], t, n)
    ensures AmongBlanks(s, t, n)
  {
    var init := s[..|s| - 1];
    assert s[n..n + |t|] == init[n..n + |t|] && s[..n] == init[..n];
    assert s[n + |t|..] == init[n + |t|..] + [s[|s| - 1]];
  }

  lemma DropFront(s: string, t: string, n: nat)
    requires AmongBlanks(s, t, n) && n > 0
    ensures IsBlank(s[0]) && AmongBlanks(s[1..], t, n - 1)
  {
    assert s[..n][0] == s[0];
    assert s[1..][n - 1..n - 1 + |t|] == s[n..n + |t|];
    assert s[1..][n - 1 + |t|..] == s[n + |t|..];
    assert s[1..][..n - 1] == s[..n][1..];
  }

  lemma DropBack(s: string, t: string)
    requires AmongBlanks(s, t, 0) && |t| < |s|
    ensures IsBlank(s[|s| - 1]) && AmongBlanks(s[..|s| - 1], t, 0)
  {
    var (init, rest) := (s[..|s| - 1], s[|t|..]);
    assert rest[|rest| - 1] == s[|s| - 1];
    assert init[0..|t|] == s[0..|t|];
    assert init[|t|..] == rest[..|rest| - 1];
  }

  lemma AllBlank(s: string, n: nat)
    requires AmongBlanks(s, "", n)
    ensures Blank(s)
  {
    assert s == s[..n] + s[n..];
  }

  lemma {:induction false} TrimSpaceOf(s: string, t: string, n: nat)
    requires NoBlankEnds(t) && AmongBlanks(s, t, n)
    ensures TrimSpace(s) == t
    decreases |s|
  {
    hide TrimSpace;
    if t == "" {
      AllBlank(s, n);
      TrimBlank(s);
    } else if n > 0 {
      DropFront(s, t, n);
      TrimFront(s);
      TrimSpaceOf(s[1..], t, n - 1);
    } else if |t| < |s| {
      DropBack(s, t);
      assert s[0] == t[0];
      TrimBack(s);
      TrimSpaceOf(s[..|s| - 1], t, 0);
    } else {
      assert s == t;
      TrimNone(s);
    }
  }

  lemma {:induction false} TrimBlank(s: string)
    requires Blank(s)
    ensures TrimSpace(s) == ""
    decreases |s|
  {
    hide TrimSpace;
    if s == "" {
      TrimNone(s);
    } else {
      TrimFront(s);
      TrimBlank(s[1..]);
    }
  }

  // s is raw without its surrounding blanks, in upper case.
  ghost predicate Normalizes(raw: string, s: string) {
    exists core, n: nat ::
      && NoBlankEnds(core) && AmongBlanks(raw, core, n)
      && |core| == |s|
      && forall i :: 0 <= i < |s| ==> SameLetter(core[i], s[i]) && !('a' <= s[i] <= 'z')
  }

  lemma UpperTrimIff(raw: string, s: string)
    ensures ToUpper(TrimSpace(raw)) == s <==> Normalizes(raw, s)
  {
    hide AmongBlanks, NoBlankEnds, TrimSpace;
    var t := TrimSpace(raw);
    TrimSpaceIff(raw, t);
    UpperIff(t, s);
    if Normalizes(raw, s) {
      var core, n: nat :|
        && NoBlankEnds(core) && AmongBlanks(raw, core, n)
        && |core| == |s|
        && forall i :: 0 <= i < |s| ==> SameLetter(core[i], s[i]) && !('a' <= s[i] <= 'z');
      TrimSpaceIff(raw, core);
    }
  }

  lemma UpperIff(t: string, s: string)
    ensures ToUpper(t) == s <==>
              |t| == |s| && forall i :: 0 <= i < |s| ==> SameLetter(t[i], s[i]) && !('a' <= s[i] <= 'z')
  {
    if |t| == |s| && forall i :: 0 <= i < |s| ==> SameLetter(t[i], s[i]) && !('a' <= s[i] <= 'z') {
      assert forall i :: 0 <= i < |s| ==> ToUpper(t)[i] == s[i];
    }
  }
}
