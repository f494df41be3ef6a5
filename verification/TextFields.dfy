/** strings.FieldsFunc: the maximal runs of characters that are not separators. */
module TextFields {

  type CharClass = char -> bool

  /** The tokens of t, in order. */
  function Fields(t: string, sep: CharClass): (r: seq<string>)
    ensures t != [] && !sep(t[0]) ==> r != []
    ensures forall w :: w in r ==> w != "" && forall c :: c in w ==> !sep(c)
  {
    if t == [] then []
    else if sep(t[0]) then Fields(t[1..], sep)
    else
      var r := Fields(t[1..], sep);
      if |t| == 1 || sep(t[1]) then [[t[0]]] + r
      else
        assert r[0] in r && forall w :: w in r[1..] ==> w in r;
        assert forall c :: c in [t[0]] + r[0] ==> !sep(c);
        [[t[0]] + r[0]] + r[1..]
  }

  /** Splitting a text at a boundary splits its tokens. */
  lemma {:induction false} FieldsConcat(u: string, v: string, sep: CharClass)
    requires u == [] || v == [] || sep(u[|u| - 1]) || sep(v[0])
    ensures Fields(u + v, sep) == Fields(u, sep) + Fields(v, sep)
  {
    if u == [] {
      assert u + v == v;
    } else if v == [] {
      assert u + v == u;
    } else {
      assert (u + v)[1..] == u[1..] + v;
      FieldsConcat(u[1..], v, sep);
    }
  }

  lemma {:induction false} FieldsOfToken(w: string, sep: CharClass)
    requires w != "" && forall c :: c in w ==> !sep(c)
    ensures Fields(w, sep) == [w]
  {
    assert w[0] in w;
    if |w| == 1 {
      assert w == [w[0]] && Fields(w[1..], sep) == [];
    } else {
      assert w[1] in w;
      FieldsOfToken(w[1..], sep);
      assert [w[0]] + w[1..] == w;
    }
  }

  lemma {:induction false} FieldsOfSeparators(t: string, sep: CharClass)
    requires forall c :: c in t ==> sep(c)
    ensures Fields(t, sep) == []
  {
    if t != [] {
      assert t[0] in t;
      FieldsOfSeparators(t[1..], sep);
    }
  }

  /** The length of the leading run of non-separators. */
  function Run(t: string, sep: CharClass): (n: nat)
    ensures n <= |t|
    ensures forall c :: c in t[..n] ==> !sep(c)
    ensures n < |t| ==> sep(t[n])
  {
    if t == [] || sep(t[0]) then 0
    else
      assert t[..1 + Run(t[1..], sep)] == [t[0]] + t[1..][..Run(t[1..], sep)];
      1 + Run(t[1..], sep)
  }

  lemma FirstToken(t: string, sep: CharClass)
    requires t != [] && !sep(t[0])
    ensures var n := Run(t, sep); n > 0 && Fields(t, sep) == [t[..n]] + Fields(t[n..], sep)
  {
    var n := Run(t, sep);
    assert t == t[..n] + t[n..];
    FieldsConcat(t[..n], t[n..], sep);
    FieldsOfToken(t[..n], sep);
  }

  // ----- tokens are the maximal runs -----

  ghost predicate IsToken(t: string, i: int, j: int, sep: CharClass) {
    && 0 <= i < j <= |t|
    && (forall k :: i <= k < j ==> !sep(t[k]))
    && (i == 0 || sep(t[i - 1]))
    && (j == |t| || sep(t[j]))
  }

  /** A delimited run is a token. */
  lemma RunIsToken(x: string, w: string, y: string, sep: CharClass)
    requires w != "" && forall c :: c in w ==> !sep(c)
    requires x == [] || sep(x[|x| - 1])
    requires y == [] || sep(y[0])
    ensures Fields(x + w + y, sep) == Fields(x, sep) + [w] + Fields(y, sep)
  {
    FieldsConcat(x + w, y, sep);
    FieldsConcat(x, w, sep);
    FieldsOfToken(w, sep);
  }

  /** A token of a suffix that starts after a separator is a token of the text. */
  lemma ShiftToken(t: string, n: nat, i: int, j: int, sep: CharClass)
    requires n <= |t| && IsToken(t[n..], i, j, sep)
    requires i > 0 || n == 0 || sep(t[n - 1])
    ensures IsToken(t, i + n, j + n, sep) && t[i + n..j + n] == t[n..][i..j]
  {
    forall k | i + n <= k < j + n ensures !sep(t[k]) {
      assert t[k] == t[n..][k - n];
    }
  }

  /** The length of what comes first: a separator or a token. */
  function Front(t: string, sep: CharClass): (n: nat)
    requires t != []
    ensures 0 < n <= |t|
  {
    if sep(t[0]) then 1 else Run(t, sep)
  }

  /** Where the tokens lie, from left to right. */
  function Spans(t: string, sep: CharClass): seq<(int, int)>
    decreases |t|
  {
    if t == [] then []
    else
      var n := Front(t, sep);
      var rest := Shifted(Spans(t[n..], sep), n);
      if sep(t[0]) then rest else [(0, n)] + rest
  }

  function Shifted(spans: seq<(int, int)>, n: nat): (r: seq<(int, int)>)
    ensures |r| == |spans|
    ensures forall k :: 0 <= k < |r| ==> r[k] == (spans[k].0 + n, spans[k].1 + n)
  {
    seq(|spans|, k requires 0 <= k < |spans| => (spans[k].0 + n, spans[k].1 + n))
  }

  ghost predicate LiesAt(span: (int, int), w: string, t: string, sep: CharClass) {
    IsToken(t, span.0, span.1, sep) && t[span.0..span.1] == w
  }

  /** The spans hold the tokens, one each, and do not touch. */
  ghost predicate Locates(spans: seq<(int, int)>, tokens: seq<string>, t: string, sep: CharClass) {
    && |spans| == |tokens|
    && (forall k :: 0 <= k < |spans| ==> LiesAt(spans[k], tokens[k], t, sep))
    && (forall k, m :: 0 <= k < m < |spans| ==> spans[k].1 < spans[m].0)
  }

  lemma ShiftLiesAt(span: (int, int), w: string, t: string, n: nat, sep: CharClass)
    requires 0 < n <= |t| && LiesAt(span, w, t[n..], sep)
    requires sep(t[n - 1]) || (n < |t| && sep(t[n]))
    ensures LiesAt((span.0 + n, span.1 + n), w, t, sep)
    ensures !sep(t[n - 1]) ==> span.0 > 0
  {
    if !sep(t[n - 1]) {
      assert t[n..][0] == t[n];
    }
    ShiftToken(t, n, span.0, span.1, sep);
  }

  lemma ShiftLocates(spans: seq<(int, int)>, tokens: seq<string>, t: string, n: nat, sep: CharClass)
    requires 0 < n <= |t| && Locates(spans, tokens, t[n..], sep)
    requires sep(t[n - 1]) || n == |t| || sep(t[n])
    ensures Locates(Shifted(spans, n), tokens, t, sep)
    ensures !sep(t[n - 1]) ==> forall k :: 0 <= k < |spans| ==> spans[k].0 > 0
  {
    if n < |t| {
      forall k | 0 <= k < |spans|
        ensures LiesAt(Shifted(spans, n)[k], tokens[k], t, sep)
        ensures !sep(t[n - 1]) ==> spans[k].0 > 0
      {
        hide LiesAt;
        ShiftLiesAt(spans[k], tokens[k], t, n, sep);
      }
    }
  }

  lemma PrependLocates(spans: seq<(int, int)>, tokens: seq<string>, t: string, n: nat, sep: CharClass)
    requires IsToken(t, 0, n, sep) && Locates(spans, tokens, t[n..], sep)
    ensures Locates([(0, n)] + Shifted(spans, n), [t[..n]] + tokens, t, sep)
  {
    ShiftLocates(spans, tokens, t, n, sep);
    assert LiesAt((0, n), t[..n], t, sep);
    hide LiesAt;
  }

  lemma RunIsMaximal(t: string, sep: CharClass)
    requires t != [] && !sep(t[0])
    ensures IsToken(t, 0, Run(t, sep), sep)
  {
    var n := Run(t, sep);
    forall k | 0 <= k < n ensures !sep(t[k]) { assert t[k] in t[..n]; }
  }

  lemma {:induction false} SpansLocate(t: string, sep: CharClass)
    ensures Locates(Spans(t, sep), Fields(t, sep), t, sep)
    decreases |t|
  {
    if t != [] {
      if sep(t[0]) {
        SpansLocate(t[1..], sep);
        ShiftLocates(Spans(t[1..], sep), Fields(t[1..], sep), t, 1, sep);
      } else {
        FirstToken(t, sep);
        RunIsMaximal(t, sep);
        SpansLocate(t[Run(t, sep)..], sep);
        PrependLocates(Spans(t[Run(t, sep)..], sep), Fields(t[Run(t, sep)..], sep), t, Run(t, sep), sep);
      }
    }
  }

  lemma SpansUnroll(t: string, sep: CharClass)
    requires t != []
    ensures var n := Front(t, sep);
      Spans(t, sep) == (if sep(t[0]) then [] else [(0, n)]) + Shifted(Spans(t[n..], sep), n)
  {
  }

  lemma RestIsIn(t: string, i: int, j: int, sep: CharClass)
    requires t != [] && (i, j) in Spans(t[Front(t, sep)..], sep)
    ensures (i + Front(t, sep), j + Front(t, sep)) in Spans(t, sep)
  {
    hide *;
    var n := Front(t, sep);
    var spans := Spans(t[n..], sep);
    var k :| 0 <= k < |spans| && spans[k] == (i, j);
    assert Shifted(spans, n)[k] == (i + n, j + n);
    SpansUnroll(t, sep);
  }

  lemma FrontIsIn(t: string, sep: CharClass)
    requires t != [] && !sep(t[0])
    ensures (0, Front(t, sep)) in Spans(t, sep)
  {
    assert Spans(t, sep)[0] == (0, Front(t, sep));
  }

  lemma DropFront(t: string, n: nat, i: int, j: int, sep: CharClass)
    requires n <= i && IsToken(t, i, j, sep)
    ensures IsToken(t[n..], i - n, j - n, sep)
  {
  }

  lemma FirstOrLater(t: string, i: int, j: int, sep: CharClass)
    requires IsToken(t, i, j, sep)
    ensures t != [] && (if i == 0 then !sep(t[0]) && j == Front(t, sep) else i >= Front(t, sep))
  {
    if !sep(t[0]) {
      RunIsMaximal(t, sep);
    }
  }

  lemma {:induction false} SpansComplete(t: string, i: int, j: int, sep: CharClass)
    requires IsToken(t, i, j, sep)
    ensures (i, j) in Spans(t, sep)
    decreases |t|
  {
    hide *;
    FirstOrLater(t, i, j, sep);
    var n := Front(t, sep);
    if i == 0 {
      FrontIsIn(t, sep);
    } else {
      DropFront(t, n, i, j, sep);
      SpansComplete(t[n..], i - n, j - n, sep);
      RestIsIn(t, i - n, j - n, sep);
    }
  }

  /** The tokens of a text are its maximal separator-free runs: each of them once, in their
      order, and nothing else. */
  lemma TokensAreMaximalRuns(t: string, sep: CharClass)
    ensures Locates(Spans(t, sep), Fields(t, sep), t, sep)
    ensures forall i, j :: IsToken(t, i, j, sep) ==> (i, j) in Spans(t, sep)
  {
    SpansLocate(t, sep);
    forall i, j | IsToken(t, i, j, sep) ensures (i, j) in Spans(t, sep) {
      SpansComplete(t, i, j, sep);
    }
  }

  // ----- a coarser and a finer splitting -----

  function Refine(tokens: seq<string>, sep: CharClass): seq<string> {
    if tokens == [] then [] else Fields(tokens[0], sep) + Refine(tokens[1..], sep)
  }

  /** Splitting by more separators is splitting the tokens again. */
  lemma {:induction false} FinerFields(t: string, coarse: CharClass, fine: CharClass)
    requires forall c :: coarse(c) ==> fine(c)
    ensures Fields(t, fine) == Refine(Fields(t, coarse), fine)
    decreases |t|
  {
    if t != [] {
      if coarse(t[0]) {
        FinerFields(t[1..], coarse, fine);
      } else {
        var n := Run(t, coarse);
        FirstToken(t, coarse);
        assert t == t[..n] + t[n..];
        FieldsConcat(t[..n], t[n..], fine);
        FinerFields(t[n..], coarse, fine);
      }
    }
  }
}
