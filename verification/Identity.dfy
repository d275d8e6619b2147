/** Text as identity: trimming, lower case, substrings, and the order identities are listed in. */
module Identity {
  import opened Prelude

  predicate IsSpace(c: char) {
    c == ' ' || c == '\t' || c == '\n' || c == '\r'
  }

  function TrimLeft(s: string): string {
    if s != [] && IsSpace(s[0]) then TrimLeft(s[1..]) else s
  }

  function TrimRight(s: string): string {
    if s != [] && IsSpace(s[|s| - 1]) then TrimRight(s[..|s| - 1]) else s
  }

  function Trim(s: string): string {
    TrimRight(TrimLeft(s))
  }

  function Lower(c: char): char {
    if 'A' <= c <= 'Z' then (c as int + 32) as char else c
  }

  function Lowercased(s: string): string {
    seq(|s|, i requires 0 <= i < |s| => Lower(s[i]))
  }

  function Replaced(s: string, from: char, to: char): string {
    seq(|s|, i requires 0 <= i < |s| => if s[i] == from then to else s[i])
  }

  predicate HasContent(s: string) {
    Trim(s) != ""
  }

  /** The form two spellings of one identity share; blank text identifies nothing. */
  function StableIdentity(s: string): Option<string> {
    if HasContent(s) then Some(Lowercased(Trim(s))) else None
  }

  predicate Contains(s: string, part: string) {
    |part| <= |s| && (s[..|part|] == part || (s != [] && Contains(s[1..], part)))
  }

  predicate HasSuffix(s: string, suffix: string) {
    |suffix| <= |s| && s[|s| - |suffix|..] == suffix
  }

  /** Lexicographic order. */
  predicate Precedes(a: string, b: string) {
    b != [] && (a == [] || a[0] < b[0] || (a[0] == b[0] && Precedes(a[1..], b[1..])))
  }

  // ----- What these mean ----------------------------------------------------------------------------------

  predicate IsWhite(c: char) {
    var code := c as int;
    code == 32 || code == 9 || code == 10 || code == 13
  }

  predicate IsBlank(s: string) {
    forall i | 0 <= i < |s| :: IsWhite(s[i])
  }

  lemma {:induction false} TrimLeftIsExact(s: string) returns (k: nat)
    ensures k <= |s| && IsBlank(s[..k]) && TrimLeft(s) == s[k..]
    ensures TrimLeft(s) != "" ==> !IsWhite(TrimLeft(s)[0])
  {
    k := 0;
    if s != [] && IsSpace(s[0]) {
      var rest := TrimLeftIsExact(s[1..]);
      k := rest + 1;
      assert s[1..][..rest] == s[1..k] && s[1..][rest..] == s[k..];
      forall i | 0 <= i < k
        ensures IsWhite(s[..k][i])
      {
        assert i > 0 ==> s[i] == s[1..][..rest][i - 1];
      }
    }
  }

  lemma {:induction false} TrimRightIsExact(s: string) returns (k: nat)
    ensures k <= |s| && IsBlank(s[k..]) && TrimRight(s) == s[..k]
    ensures k > 0 ==> !IsWhite(s[k - 1])
  {
    k := |s|;
    if s != [] && IsSpace(s[|s| - 1]) {
      var n := |s| - 1;
      k := TrimRightIsExact(s[..n]);
      assert s[..n][..k] == s[..k];
      assert s[..n][k..] + [s[n]] == s[k..];
    }
  }

  /** Trimming takes blanks from both ends, and all of them. */
  lemma TrimIsExact(s: string) returns (from: nat, to: nat)
    ensures from <= to <= |s| && Trim(s) == s[from..to] && IsBlank(s[..from]) && IsBlank(s[to..])
    ensures from < to ==> !IsWhite(s[from]) && !IsWhite(s[to - 1])
  {
    from := TrimLeftIsExact(s);
    var kept := TrimRightIsExact(s[from..]);
    to := from + kept;
    assert s[from..][..kept] == s[from..to] && s[from..][kept..] == s[to..];
  }

  lemma NothingButBlanks(s: string, from: nat, to: nat)
    requires from <= to <= |s| && IsBlank(s[..from]) && IsBlank(s[to..])
    ensures from == to ==> IsBlank(s)
  {
    if from == to {
      assert s == s[..from] + s[to..];
    }
  }

  /** What lies between two places of a text, in lower case, with only blanks around it. */
  predicate IsCore(s: string, core: string, from: nat, to: nat) {
    && from < to <= |s| && IsBlank(s[..from]) && IsBlank(s[to..]) && !IsWhite(s[from]) && !IsWhite(s[to - 1])
    && |core| == to - from && forall i | 0 <= i < |core| :: SameLetter(core[i], s[from + i])
  }

  /** Text has content unless it is blank, and identity ignores blanks around it and the case of Latin letters. */
  lemma StableIdentityIsExact(s: string)
    ensures HasContent(s) <==> !IsBlank(s)
    ensures StableIdentity(s).None? <==> IsBlank(s)
    ensures StableIdentity(s).Some? ==> exists from: nat, to: nat :: IsCore(s, StableIdentity(s).value, from, to)
  {
    var from, to := TrimIsExact(s);
    if IsBlank(s) {
      assert from == to;
    } else {
      NothingButBlanks(s, from, to);
      assert IsCore(s, StableIdentity(s).value, from, to);
    }
  }

  /** A lower-case letter for an upper-case one, and any other character for itself. */
  predicate SameLetter(lower: char, c: char) {
    if c < 'A' || c > 'Z' then lower == c else lower as int - 'a' as int == c as int - 'A' as int
  }

  predicate OccursAt(s: string, part: string, i: nat) {
    i + |part| <= |s| && s[i..i + |part|] == part
  }

  lemma {:induction false} ContainsIsExact(s: string, part: string)
    ensures Contains(s, part) <==> exists i: nat :: OccursAt(s, part, i)
  {
    if |part| <= |s| {
      if s[..|part|] == part {
        assert OccursAt(s, part, 0);
      } else if s != [] {
        ContainsIsExact(s[1..], part);
        if i: nat :| OccursAt(s[1..], part, i) {
          assert s[1..][i..i + |part|] == s[i + 1..i + 1 + |part|];
          assert OccursAt(s, part, i + 1);
        }
        if i: nat :| OccursAt(s, part, i) {
          assert i > 0;
          assert s[1..][i - 1..i - 1 + |part|] == s[i..i + |part|];
          assert OccursAt(s[1..], part, i - 1);
        }
      }
    }
  }

  /** Where two texts first differ: one ends, or their characters do. */
  predicate DecidesAt(a: string, b: string, k: nat) {
    && k <= |a| && k < |b| && a[..k] == b[..k] && (k == |a| || a[k] < b[k])
  }

  lemma HeadsAgree(a: string, b: string)
    ensures forall k: nat :: DecidesAt(a, b, k) && k > 0 ==> a[0] == b[0]
  {
    forall k: nat | DecidesAt(a, b, k) && k > 0
      ensures a[0] == b[0]
    {
      assert a[0] == a[..k][0] && b[0] == b[..k][0];
    }
  }

  lemma {:induction false} PrecedesIsLexicographic(a: string, b: string)
    ensures Precedes(a, b) <==> exists k: nat :: DecidesAt(a, b, k)
  {
    HeadsAgree(a, b);
    if b != [] && a != [] {
      PrecedesIsLexicographic(a[1..], b[1..]);
      if a[0] == b[0] {
        if k: nat :| DecidesAt(a[1..], b[1..], k) {
          assert a[..k + 1] == [a[0]] + a[1..][..k] && b[..k + 1] == [b[0]] + b[1..][..k];
          assert DecidesAt(a, b, k + 1);
        }
        if k: nat :| DecidesAt(a, b, k) {
          assert a[1..][..k - 1] == a[..k][1..] && b[1..][..k - 1] == b[..k][1..];
          assert DecidesAt(a[1..], b[1..], k - 1);
        }
      } else if a[0] < b[0] {
        assert DecidesAt(a, b, 0);
      }
    } else if b != [] {
      assert DecidesAt(a, b, 0);
    }
  }

  lemma {:induction false} PrecedesIsIrreflexive(a: string)
    ensures !Precedes(a, a)
  {
    if a != [] {
      PrecedesIsIrreflexive(a[1..]);
    }
  }

  lemma {:induction false} PrecedesIsTransitive(a: string, b: string, c: string)
    requires Precedes(a, b) && Precedes(b, c)
    ensures Precedes(a, c)
  {
    if a != [] && a[0] == b[0] && b[0] == c[0] {
      PrecedesIsTransitive(a[1..], b[1..], c[1..]);
    }
  }

  lemma {:induction false} PrecedesIsTotal(a: string, b: string)
    requires a != b
    ensures Precedes(a, b) || Precedes(b, a)
  {
    if a != [] && b != [] && a[0] == b[0] {
      assert a == [a[0]] + a[1..] && b == [b[0]] + b[1..];
      PrecedesIsTotal(a[1..], b[1..]);
    }
  }
}
