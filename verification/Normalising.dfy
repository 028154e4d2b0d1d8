/** Lower-casing and trimming of texts, over any lower-casing and any class of blanks. */
module Normalising {

  /** `lower` is `toLowerCase`, on whole texts: it may look at neighbours and change lengths. `blank` says
      which characters `trim` drops. */
  datatype Casing = Casing(lower: string -> string, blank: char -> bool)

  /** Lower-casing twice is lower-casing once; blanks have no case and do not affect what is beside them;
      and a text without blanks at its ends has none there in lower case. */
  ghost predicate Regular(al: Casing) {
    && (forall s: string :: al.lower(al.lower(s)) == al.lower(s))
    && (forall p: string, s: string, q: string :: Blank(al, p) && Blank(al, q) ==> al.lower(p + s + q) == p + al.lower(s) + q)
    && (forall s: string :: Bare(al, s) ==> Bare(al, al.lower(s)))
  }

  ghost predicate Bare(al: Casing, s: string) {
    s == [] || (!al.blank(s[0]) && !al.blank(s[|s| - 1]))
  }

  ghost predicate Blank(al: Casing, s: string) {
    forall i :: 0 <= i < |s| ==> al.blank(s[i])
  }

  function TrimStart(al: Casing, s: string): string {
    if s != [] && al.blank(s[0]) then TrimStart(al, s[1..]) else s
  }

  function TrimEnd(al: Casing, s: string): string {
    if s != [] && al.blank(s[|s| - 1]) then TrimEnd(al, s[..|s| - 1]) else s
  }

  function Trim(al: Casing, s: string): string {
    TrimEnd(al, TrimStart(al, s))
  }

  /** `email.toLowerCase().trim()` */
  function Normalise(al: Casing, email: string): string {
    Trim(al, al.lower(email))
  }

  lemma {:induction false} TrimStartDropsBlank(al: Casing, s: string) returns (pre: string)
    ensures s == pre + TrimStart(al, s) && Blank(al, pre)
    ensures TrimStart(al, s) == [] || !al.blank(TrimStart(al, s)[0])
  {
    if s != [] && al.blank(s[0]) {
      var rest := TrimStartDropsBlank(al, s[1..]);
      pre := [s[0]] + rest;
      assert s == [s[0]] + s[1..];
    } else {
      pre := [];
    }
  }

  lemma {:induction false} TrimEndDropsBlank(al: Casing, s: string) returns (post: string)
    ensures s == TrimEnd(al, s) + post && Blank(al, post)
    ensures TrimEnd(al, s) == [] || !al.blank(TrimEnd(al, s)[|TrimEnd(al, s)| - 1])
  {
    if s != [] && al.blank(s[|s| - 1]) {
      var rest := TrimEndDropsBlank(al, s[..|s| - 1]);
      post := rest + [s[|s| - 1]];
      assert s == s[..|s| - 1] + [s[|s| - 1]];
    } else {
      post := [];
    }
  }

  /** What trimming leaves is bare, and what it cuts off is blank. */
  lemma TrimSplits(al: Casing, s: string) returns (pre: string, post: string)
    ensures s == pre + Trim(al, s) + post
    ensures Blank(al, pre) && Blank(al, post) && Bare(al, Trim(al, s))
  {
    hide TrimStart, TrimEnd;
    pre := TrimStartDropsBlank(al, s);
    post := TrimEndDropsBlank(al, TrimStart(al, s));
    var n := Trim(al, s);
    assert TrimStart(al, s) == n + post;
    if n != [] { assert TrimStart(al, s)[0] == n[0]; }
  }

  lemma {:induction false} TrimStartSkips(al: Casing, pre: string, s: string)
    requires Blank(al, pre) && (s == [] || !al.blank(s[0]))
    ensures TrimStart(al, pre + s) == s
  {
    if pre == [] {
      assert pre + s == s;
    } else {
      assert (pre + s)[1..] == pre[1..] + s;
      TrimStartSkips(al, pre[1..], s);
    }
  }

  lemma {:induction false} TrimEndSkips(al: Casing, s: string, post: string)
    requires Blank(al, post) && (s == [] || !al.blank(s[|s| - 1]))
    ensures TrimEnd(al, s + post) == s
  {
    if post == [] {
      assert s + post == s;
    } else {
      assert (s + post)[..|s + post| - 1] == s + post[..|post| - 1];
      TrimEndSkips(al, s, post[..|post| - 1]);
    }
  }

  lemma {:induction false} BlankTrimsToNothing(al: Casing, s: string)
    requires Blank(al, s)
    ensures TrimStart(al, s) == []
  {
    if s != [] { BlankTrimsToNothing(al, s[1..]); }
  }

  lemma TrimPadded(al: Casing, pre: string, m: string, post: string)
    requires Blank(al, pre) && Blank(al, post) && Bare(al, m)
    ensures Trim(al, pre + m + post) == m
  {
    if m == [] {
      BlankTrimsToNothing(al, pre + m + post);
    } else {
      assert pre + m + post == pre + (m + post);
      TrimStartSkips(al, pre, m + post);
      TrimEndSkips(al, m, post);
    }
  }

  /** Blanks around a text make no difference to what trimming leaves. */
  lemma TrimIgnoresPadding(al: Casing, p: string, s: string, q: string)
    requires Blank(al, p) && Blank(al, q)
    ensures Trim(al, p + s + q) == Trim(al, s)
  {
    hide Trim;
    var pre, post := TrimSplits(al, s);
    assert p + s + q == (p + pre) + Trim(al, s) + (post + q);
    TrimPadded(al, p + pre, Trim(al, s), post + q);
  }

  /** Trimming before lower-casing gives the same. */
  lemma TrimFirst(al: Casing, email: string)
    requires Regular(al)
    ensures Normalise(al, email) == al.lower(Trim(al, email))
  {
    hide Trim;
    var pre, post := TrimSplits(al, email);
    TrimPadded(al, pre, al.lower(Trim(al, email)), post);
  }

  /** Normalising twice is normalising once. */
  lemma NormaliseIdempotent(al: Casing, email: string)
    requires Regular(al)
    ensures Normalise(al, Normalise(al, email)) == Normalise(al, email)
  {
    hide Trim;
    var pre, post := TrimSplits(al, email);
    TrimFirst(al, email);
    var n := Normalise(al, email);
    assert Bare(al, n);
    TrimPadded(al, "", n, "");
    assert "" + n + "" == n;
  }

  /** Two e-mails are variants of one another: between blanks, they differ at most in case. */
  ghost predicate Variant(al: Casing, a: string, b: string) {
    exists p, m, q, x, n, y :: Padded(al, a, p, m, q) && Padded(al, b, x, n, y) && al.lower(m) == al.lower(n)
  }

  ghost predicate Padded(al: Casing, s: string, pre: string, m: string, post: string) {
    Blank(al, pre) && Blank(al, post) && s == pre + m + post
  }

  lemma PaddedNormalises(al: Casing, s: string, pre: string, m: string, post: string)
    requires Regular(al) && Padded(al, s, pre, m, post)
    ensures Normalise(al, s) == Normalise(al, m)
  {
    hide Trim;
    TrimIgnoresPadding(al, pre, al.lower(m), post);
  }

  /** Two e-mails share their normal form exactly when they differ only in case and padding. */
  lemma SameNormalFormIffVariant(al: Casing, a: string, b: string)
    requires Regular(al)
    ensures Normalise(al, a) == Normalise(al, b) <==> Variant(al, a, b)
  {
    if Normalise(al, a) == Normalise(al, b) {
      var p, q := TrimSplits(al, a);
      var x, y := TrimSplits(al, b);
      TrimFirst(al, a);
      TrimFirst(al, b);
      assert Padded(al, a, p, Trim(al, a), q) && Padded(al, b, x, Trim(al, b), y);
    }
    if Variant(al, a, b) {
      var p, m, q, x, n, y :| Padded(al, a, p, m, q) && Padded(al, b, x, n, y) && al.lower(m) == al.lower(n);
      PaddedNormalises(al, a, p, m, q);
      PaddedNormalises(al, b, x, n, y);
    }
  }

  // ---------- a casing there is ----------

  /** What JavaScript's `trim` drops: white space and line terminators. */
  predicate IsSpace(ch: char) {
    || ch in " \t\n\r"
    || ch as int in {0x0B, 0x0C, 0xA0, 0x1680, 0x2028, 0x2029, 0x202F, 0x205F, 0x3000, 0xFEFF}
    || 0x2000 <= ch as int <= 0x200A
  }

  /** The letters of ASCII and Latin-1; every other character is left as it is. */
  function LowerChar(ch: char): char {
    if 'A' <= ch <= 'Z' || (0xC0 <= ch as int <= 0xDE && ch as int != 0xD7) then (ch as int + 32) as char else ch
  }

  function LowerEach(s: string): string {
    seq(|s|, i requires 0 <= i < |s| => LowerChar(s[i]))
  }

  /** Lower-casing letter by letter is regular. */
  function Latin(): (al: Casing)
    ensures Regular(al)
  {
    LatinRegular();
    Casing(LowerEach, IsSpace)
  }

  lemma LatinLetters()
    ensures forall ch: char :: LowerChar(LowerChar(ch)) == LowerChar(ch) && (IsSpace(LowerChar(ch)) <==> IsSpace(ch))
    ensures forall ch: char :: IsSpace(ch) ==> LowerChar(ch) == ch
  {
  }

  lemma LowerTwice(s: string)
    ensures LowerEach(LowerEach(s)) == LowerEach(s)
  {
    hide IsSpace, LowerChar;
    LatinLetters();
  }

  lemma LowerBlank(p: string)
    requires forall i :: 0 <= i < |p| ==> IsSpace(p[i])
    ensures LowerEach(p) == p
  {
    hide IsSpace, LowerChar;
    LatinLetters();
  }

  lemma LowerPadded(p: string, s: string, q: string)
    requires LowerEach(p) == p && LowerEach(q) == q
    ensures LowerEach(p + s + q) == p + LowerEach(s) + q
  {
    hide IsSpace, LowerChar;
    assert LowerEach(p + s + q) == LowerEach(p) + LowerEach(s) + LowerEach(q);
  }

  lemma LatinRegular()
    ensures Regular(Casing(LowerEach, IsSpace))
  {
    hide IsSpace, LowerChar, LowerEach;
    var al := Casing(LowerEach, IsSpace);
    forall s: string ensures al.lower(al.lower(s)) == al.lower(s) { LowerTwice(s); }
    forall p: string, s: string, q: string | Blank(al, p) && Blank(al, q) ensures al.lower(p + s + q) == p + al.lower(s) + q {
      LowerBlank(p);
      LowerBlank(q);
      LowerPadded(p, s, q);
    }
    forall s: string | Bare(al, s) ensures Bare(al, al.lower(s)) { LowerBare(s); }
  }

  lemma LowerBare(s: string)
    requires s == [] || (!IsSpace(s[0]) && !IsSpace(s[|s| - 1]))
    ensures var l := LowerEach(s); l == [] || (!IsSpace(l[0]) && !IsSpace(l[|l| - 1]))
  {
    hide IsSpace, LowerChar;
    LatinLetters();
  }
}
