/** Space-separated scope lists: how `parseScope` and `formatScope` read and write them. */
module Scopes {

  /** A scope id that survives `split(' ').filter(Boolean)`: not empty, no space inside. */
  predicate IsToken(x: string) {
    x != "" && ' ' !in x
  }

  predicate Distinct(xs: seq<string>) {
    forall i, j :: 0 <= i < j < |xs| ==> xs[i] != xs[j]
  }

  /** What every list that leaves `ParseScope` looks like. */
  predicate IsScopeList(xs: seq<string>) {
    Distinct(xs) && forall x :: x in xs ==> IsToken(x)
  }

  ghost function Elements(xs: seq<string>): set<string> {
    set x | x in xs
  }

  /** `s.split(' ')`. */
  function Split(s: string): (pieces: seq<string>)
    ensures |pieces| > 0
    ensures forall p :: p in pieces ==> ' ' !in p
  {
    if s == "" then [""]
    else if s[0] == ' ' then [""] + Split(s[1..])
    else
      var rest := Split(s[1..]);
      [[s[0]] + rest[0]] + rest[1..]
  }

  /** `.filter(Boolean)`. */
  function NonEmpty(xs: seq<string>): (ys: seq<string>)
    ensures forall y :: y in ys <==> y in xs && y != ""
  {
    if xs == [] then []
    else if xs[0] == "" then NonEmpty(xs[1..])
    else [xs[0]] + NonEmpty(xs[1..])
  }

  /** `[...new Set(xs)]`: first occurrences, in order. */
  function Dedup(xs: seq<string>): (ys: seq<string>)
    ensures Distinct(ys)
    ensures forall y :: y in ys <==> y in xs
  {
    if xs == [] then []
    else
      var last := xs[|xs| - 1];
      var front := Dedup(xs[..|xs| - 1]);
      assert xs == xs[..|xs| - 1] + [last];
      if last in front then front else front + [last]
  }

  function ParseScope(value: string): (xs: seq<string>)
    ensures IsScopeList(xs)
  {
    Dedup(NonEmpty(Split(value)))
  }

  /** `[...scopes].join(' ')`. */
  function FormatScope(xs: seq<string>): string {
    if xs == [] then ""
    else if |xs| == 1 then xs[0]
    else xs[0] + " " + FormatScope(xs[1..])
  }

  lemma {:induction false} SplitFirst(a: string, b: string)
    requires ' ' !in a
    ensures Split(a + " " + b) == [a] + Split(b)
  {
    if a == "" {
      assert (a + " " + b)[1..] == b;
    } else {
      assert (a + " " + b)[1..] == a[1..] + " " + b;
      SplitFirst(a[1..], b);
      assert [a[0]] + a[1..] == a;
    }
  }

  /** The pieces are the runs between the spaces: none has one, and with one between any two they give the text back. */
  lemma {:induction false} SplitRejoins(s: string)
    ensures FormatScope(Split(s)) == s
    ensures forall p :: p in Split(s) ==> ' ' !in p
  {
    if s != "" {
      SplitRejoins(s[1..]);
      var rest := Split(s[1..]);
      if s[0] == ' ' {
        assert Split(s)[1..] == rest;
      } else {
        assert s == [s[0]] + s[1..];
        assert Split(s)[1..] == rest[1..];
      }
    }
  }

  lemma {:induction false} SplitWord(a: string)
    requires ' ' !in a
    ensures Split(a) == [a]
  {
    if a != "" {
      SplitWord(a[1..]);
      assert [a[0]] + a[1..] == a;
    }
  }

  lemma {:induction false} SplitFormat(xs: seq<string>)
    requires xs != []
    requires forall x :: x in xs ==> ' ' !in x
    ensures Split(FormatScope(xs)) == xs
  {
    if |xs| == 1 {
      SplitWord(xs[0]);
      assert xs == [xs[0]];
    } else {
      SplitFirst(xs[0], FormatScope(xs[1..]));
      SplitFormat(xs[1..]);
    }
  }

  lemma {:induction false} NonEmptyIdentity(xs: seq<string>)
    requires "" !in xs
    ensures NonEmpty(xs) == xs
  {
    if xs != [] {
      assert xs[0] in xs && xs == [xs[0]] + xs[1..];
      NonEmptyIdentity(xs[1..]);
    }
  }

  lemma {:induction false} DedupIdentity(xs: seq<string>)
    requires Distinct(xs)
    ensures Dedup(xs) == xs
  {
    if xs != [] {
      DedupIdentity(xs[..|xs| - 1]);
      assert xs == xs[..|xs| - 1] + [xs[|xs| - 1]];
    }
  }

  /** Reading back a formatted list gives the list: nothing lost, added or reordered. */
  lemma ParseFormat(xs: seq<string>)
    requires IsScopeList(xs)
    ensures ParseScope(FormatScope(xs)) == xs
  {
    if xs == [] {
      assert Split("") == [""];
      assert NonEmpty([""]) == NonEmpty([]) == [];
    } else {
      SplitFormat(xs);
      NonEmptyIdentity(xs);
      DedupIdentity(xs);
    }
  }

  /** Reformatting is a normal form: a text is a fixed point exactly when it is a formatted list. */
  lemma FormatParseNormalForm(s: string)
    ensures ParseScope(FormatScope(ParseScope(s))) == ParseScope(s)
    ensures FormatScope(ParseScope(s)) == s <==> exists xs :: IsScopeList(xs) && FormatScope(xs) == s
  {
    ParseFormat(ParseScope(s));
    forall xs | IsScopeList(xs) && FormatScope(xs) == s
      ensures FormatScope(ParseScope(s)) == s
    {
      ParseFormat(xs);
    }
  }

  /** Adding scopes to a stored text keeps what was there and adds exactly the new ones. */
  lemma MergedScope(s: string, more: seq<string>)
    requires IsScopeList(more)
    ensures IsScopeList(Dedup(ParseScope(s) + more))
    ensures Elements(ParseScope(FormatScope(Dedup(ParseScope(s) + more)))) == Elements(ParseScope(s)) + Elements(more)
  {
    ParseFormat(Dedup(ParseScope(s) + more));
  }
}
