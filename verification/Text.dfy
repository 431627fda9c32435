/** Trimming and case folding of ASCII text, as far as symbols and event types need it. */
module Text {

  predicate IsSpace(c: char) {
    c == ' ' || c == '\t' || c == '\n' || c == '\U{000B}' || c == '\U{000C}' || c == '\r'
  }

  function UpperChar(c: char): char {
    if 'a' <= c <= 'z' then ((c as int) - 32) as char else c
  }

  function LowerChar(c: char): char {
    if 'A' <= c <= 'Z' then ((c as int) + 32) as char else c
  }

  function Upper(s: string): string {
    seq(|s|, i requires 0 <= i < |s| => UpperChar(s[i]))
  }

  function Lower(s: string): string {
    seq(|s|, i requires 0 <= i < |s| => LowerChar(s[i]))
  }

  function TrimLeft(s: string): string {
    if s != "" && IsSpace(s[0]) then TrimLeft(s[1..]) else s
  }

  function TrimRight(s: string): string {
    if s != "" && IsSpace(s[|s| - 1]) then TrimRight(s[..|s| - 1]) else s
  }

  function Trim(s: string): string {
    TrimRight(TrimLeft(s))
  }

  /** The form in which symbols are stored. */
  function Canonical(s: string): string {
    Upper(Trim(s))
  }

  predicate Trimmed(s: string) {
    s == "" || (!IsSpace(s[0]) && !IsSpace(s[|s| - 1]))
  }

  lemma {:induction false} TrimLeftEdge(s: string)
    ensures TrimLeft(s) == "" || !IsSpace(TrimLeft(s)[0])
    decreases |s|
  {
    if s != "" && IsSpace(s[0]) {
      TrimLeftEdge(s[1..]);
    }
  }

  lemma {:induction false} TrimRightEdges(s: string)
    ensures TrimRight(s) == "" || (TrimRight(s)[0] == s[0] && !IsSpace(TrimRight(s)[|TrimRight(s)| - 1]))
    ensures TrimRight(s) != "" ==> s != ""
    decreases |s|
  {
    if s != "" && IsSpace(s[|s| - 1]) {
      TrimRightEdges(s[..|s| - 1]);
    }
  }

  lemma TrimTrims(s: string)
    ensures Trimmed(Trim(s))
  {
    TrimLeftEdge(s);
    TrimRightEdges(TrimLeft(s));
  }

  /** Trimming cuts blanks off both ends and nothing else. */
  lemma {:induction false} TrimLeftCuts(s: string)
    ensures var n := |s| - |TrimLeft(s)|;
            && 0 <= n && s[n..] == TrimLeft(s)
            && forall i :: 0 <= i < n ==> IsSpace(s[i])
    decreases |s|
  {
    if s != "" && IsSpace(s[0]) {
      TrimLeftCuts(s[1..]);
      var n := |s| - |TrimLeft(s)|;
      assert s[n..] == s[1..][n - 1..];
      forall i | 0 <= i < n ensures IsSpace(s[i]) {
        assert i > 0 ==> s[i] == s[1..][i - 1];
      }
    }
  }

  lemma {:induction false} TrimRightCuts(s: string)
    ensures var n := |TrimRight(s)|;
            && n <= |s| && s[..n] == TrimRight(s)
            && forall i :: n <= i < |s| ==> IsSpace(s[i])
    decreases |s|
  {
    if s != "" && IsSpace(s[|s| - 1]) {
      TrimRightCuts(s[..|s| - 1]);
    }
  }

  /** `t` is `s` without the blanks at its two ends. */
  ghost predicate Inner(s: string, t: string, from: nat, to: nat) {
    && from <= to <= |s| && t == s[from..to] && Trimmed(t)
    && (forall i :: 0 <= i < from ==> IsSpace(s[i])) && (forall i :: to <= i < |s| ==> IsSpace(s[i]))
  }

  lemma TrimIsInner(s: string)
    ensures exists from: nat, to: nat :: Inner(s, Trim(s), from, to)
  {
    TrimTrims(s);
    TrimLeftCuts(s);
    TrimRightCuts(TrimLeft(s));
    var from := |s| - |TrimLeft(s)|;
    var to := from + |Trim(s)|;
    assert s[from..to] == s[from..][..to - from];
    forall i | to <= i < |s| ensures IsSpace(s[i]) {
      assert s[i] == s[from..][i - from];
    }
    assert Inner(s, Trim(s), from, to);
  }

  predicate NoLower(s: string) {
    forall i :: 0 <= i < |s| ==> !('a' <= s[i] <= 'z')
  }

  /** `u` and `t` are equal up to the case of letters. */
  predicate CaseEqual(u: char, t: char) {
    u == t || ('a' <= t <= 'z' && 'A' <= u <= 'Z' && u as int - 'A' as int == t as int - 'a' as int)
  }

  /** `u` is the text `s` without the blanks around it and with its small letters made capital. */
  ghost predicate Capitalized(u: string, s: string) {
    exists from: nat, to: nat, t: string :: Inner(s, t, from, to) && CapitalOf(u, t)
  }

  predicate CapitalOf(u: string, t: string) {
    |u| == |t| && NoLower(u) && forall i :: 0 <= i < |t| ==> CaseEqual(u[i], t[i])
  }

  /** STORED SYMBOLS. A stored symbol has no small letter, is the given text between its outer blanks up to
      the case of letters, and is the given text itself when that has neither. */
  lemma CanonicalCapitalizes(s: string)
    ensures Capitalized(Canonical(s), s) && NoLower(Canonical(s)) && Trimmed(Canonical(s))
    ensures NoLower(s) && Trimmed(s) ==> Canonical(s) == s
  {
    TrimIsInner(s);
    var from: nat, to: nat :| Inner(s, Trim(s), from, to);
    assert CapitalOf(Canonical(s), Trim(s));
    CapitalStaysTrimmed(Canonical(s), Trim(s));
    if NoLower(s) && Trimmed(s) {
      assert Trim(s) == s;
    }
  }

  lemma CapitalStaysTrimmed(u: string, t: string)
    requires CapitalOf(u, t) && Trimmed(t)
    ensures Trimmed(u)
  {
    if u != "" {
      assert CaseEqual(u[0], t[0]) && CaseEqual(u[|u| - 1], t[|t| - 1]);
    }
  }

  /** Nothing else is a capitalized form of `s`. */
  lemma CapitalizedIsCanonical(u: string, s: string)
    requires Capitalized(u, s)
    ensures u == Canonical(s)
  {
    CanonicalCapitalizes(s);
    var a: nat, b: nat, t: string :| Inner(s, t, a, b) && CapitalOf(u, t);
    var c: nat, d: nat, w: string :| Inner(s, w, c, d) && CapitalOf(Canonical(s), w);
    InnerIsUnique(s, t, a, b, w, c, d);
    CapitalIsUnique(u, Canonical(s), t);
  }

  lemma CapitalIsUnique(u: string, v: string, t: string)
    requires CapitalOf(u, t) && CapitalOf(v, t)
    ensures u == v
  {
    forall i | 0 <= i < |t| ensures u[i] == v[i] {
      assert CaseEqual(u[i], t[i]) && CaseEqual(v[i], t[i]);
    }
  }

  /** Between its outer blanks, `s` is the lower-case text `word` up to the case of letters. */
  ghost predicate Spells(s: string, word: string) {
    exists from: nat, to: nat, t: string :: Inner(s, t, from, to) && SameLetters(t, word)
  }

  predicate SameLetters(t: string, word: string) {
    |t| == |word| && forall i :: 0 <= i < |word| ==> CaseEqual(t[i], word[i])
  }

  predicate NoUpper(s: string) {
    forall i :: 0 <= i < |s| ==> !('A' <= s[i] <= 'Z')
  }

  lemma LowerIff(t: string, word: string)
    requires NoUpper(word)
    ensures Lower(t) == word <==> SameLetters(t, word)
  {
    if SameLetters(t, word) {
      forall i | 0 <= i < |word| ensures Lower(t)[i] == word[i] {
        assert CaseEqual(t[i], word[i]);
      }
    }
  }

  /** Folding trims and ignores case, and nothing more. */
  lemma SpellsIff(s: string, word: string)
    requires NoUpper(word)
    ensures Lower(Trim(s)) == word <==> Spells(s, word)
  {
    TrimIsInner(s);
    var from: nat, to: nat :| Inner(s, Trim(s), from, to);
    LowerIff(Trim(s), word);
    if Spells(s, word) {
      var a: nat, b: nat, t: string :| Inner(s, t, a, b) && SameLetters(t, word);
      InnerIsUnique(s, t, a, b, Trim(s), from, to);
    }
  }

  lemma InnerIsUnique(s: string, t: string, a: nat, b: nat, w: string, c: nat, d: nat)
    requires Inner(s, t, a, b) && Inner(s, w, c, d)
    ensures t == w
  {
    if a < b {
      assert t[0] == s[a] && t[|t| - 1] == s[b - 1];
      assert c <= a && b <= d;
    }
    if c < d {
      assert w[0] == s[c] && w[|w| - 1] == s[d - 1];
      assert a <= c && d <= b;
    }
  }

  /** Storing a stored symbol changes nothing. */
  lemma CanonicalIdempotent(s: string)
    ensures Canonical(Canonical(s)) == Canonical(s)
  {
    CanonicalCapitalizes(s);
    CanonicalCapitalizes(Canonical(s));
  }

  lemma LowerInner(s: string, t: string, from: nat, to: nat)
    requires Inner(s, t, from, to)
    ensures Inner(Lower(s), Lower(t), from, to)
  {
    assert Lower(s)[from..to] == Lower(t);
    if t != "" {
      assert Lower(t)[0] == LowerChar(t[0]) && Lower(t)[|t| - 1] == LowerChar(t[|t| - 1]);
    }
  }

  lemma TrimLower(s: string)
    ensures Trim(Lower(s)) == Lower(Trim(s))
  {
    TrimIsInner(s);
    TrimIsInner(Lower(s));
    var from: nat, to: nat :| Inner(s, Trim(s), from, to);
    var a: nat, b: nat :| Inner(Lower(s), Trim(Lower(s)), a, b);
    LowerInner(s, Trim(s), from, to);
    InnerIsUnique(Lower(s), Lower(Trim(s)), from, to, Trim(Lower(s)), a, b);
  }
}
