/**
 The keyword passes of the content filter (internal/moderation/filter.go). Texts are
 lowercase character sequences; which characters are letters or digits is a parameter.
 */
module KeywordFilter {
  import opened TextFields

  datatype Filter = Filter(words: set<string>, phrases: seq<string>)

  datatype FilterResult = FilterResult(blocked: bool, reason: string, term: string)

  // ----- building a filter -----

  function NormalTerms(terms: seq<string>, normal: string -> string): set<string> {
    set i | 0 <= i < |terms| :: normal(terms[i])
  }

  /** The kept terms: words lack spaces, phrases have them, empty terms are dropped. */
  ghost predicate Loads(f: Filter, terms: set<string>) {
    && (forall w :: w in f.words <==> w in terms && w != "" && ' ' !in w)
    && (forall p :: p in f.phrases <==> p in terms && ' ' in p)
  }

  /** normal stands for trimming and lowercasing. */
  method NewFilterWithTerms(terms: seq<string>, normal: string -> string) returns (f: Filter)
    ensures Loads(f, NormalTerms(terms, normal))
  {
    f := Filter({}, []);
    for n := 0 to |terms|
      invariant Loads(f, NormalTerms(terms[..n], normal))
    {
      var term := normal(terms[n]);
      if term == "" {
      } else if ' ' in term {
        f := f.(phrases := f.phrases + [term]);
      } else {
        f := f.(words := f.words + {term});
      }
      NormalTermsStep(terms, n, normal);
    }
    assert terms[..|terms|] == terms;
  }

  lemma NormalTermsStep(terms: seq<string>, n: nat, normal: string -> string)
    requires n < |terms|
    ensures NormalTerms(terms[..n + 1], normal) == NormalTerms(terms[..n], normal) + {normal(terms[n])}
  {
    var before, after := terms[..n], terms[..n + 1];
    forall w | w in NormalTerms(before, normal) + {normal(terms[n])} ensures w in NormalTerms(after, normal) {
      if w == normal(terms[n]) {
        assert after[n] == terms[n];
      } else {
        var i :| 0 <= i < |before| && normal(before[i]) == w;
        assert after[i] == before[i];
      }
    }
    forall w | w in NormalTerms(after, normal) ensures w in NormalTerms(before, normal) + {normal(terms[n])} {
      var i :| 0 <= i < |after| && normal(after[i]) == w;
      if i < n {
        assert before[i] == after[i];
      }
    }
  }

  // ----- tokens and leetspeak -----

  predicate IsLeet(c: char) {
    c == '@' || c == '$' || c == '!'
  }

  function PlainSeparator(isWord: CharClass): CharClass {
    c => !isWord(c)
  }

  function LeetSeparator(isWord: CharClass): CharClass {
    c => !isWord(c) && !IsLeet(c)
  }

  function Unleet(c: char): char {
    match c
    case '0' => 'o'
    case '1' => 'i'
    case '3' => 'e'
    case '@' => 'a'
    case '$' => 's'
    case '!' => 'i'
    case _ => c
  }

  function Unleeted(t: string): (r: string)
    ensures |r| == |t| && forall i :: 0 <= i < |t| ==> r[i] == Unleet(t[i])
  {
    seq(|t|, i requires 0 <= i < |t| => Unleet(t[i]))
  }

  method NormalizeLeet(text: string) returns (r: string)
    ensures r == Unleeted(text)
  {
    r := "";
    for i := 0 to |text|
      invariant |r| == i && forall k :: 0 <= k < i ==> r[k] == Unleet(text[k])
    {
      var c := text[i];
      if c == '0' { r := r + ['o']; }
      else if c == '1' || c == '!' { r := r + ['i']; }
      else if c == '3' { r := r + ['e']; }
      else if c == '@' { r := r + ['a']; }
      else if c == '$' { r := r + ['s']; }
      else { r := r + [c]; }
    }
  }

  /** The ways the filter knows of writing a letter; a substitute stands for no letter of
      its own. */
  function Spellings(c: char): set<char> {
    if c == 'a' then {'a', '@'}
    else if c == 'e' then {'e', '3'}
    else if c == 'i' then {'i', '1', '!'}
    else if c == 'o' then {'o', '0'}
    else if c == 's' then {'s', '$'}
    else if c in "013" || IsLeet(c) then {}
    else {c}
  }

  predicate Spells(token: string, w: string) {
    |token| == |w| && forall i :: 0 <= i < |w| ==> token[i] in Spellings(w[i])
  }

  /** Normalising yields exactly the word that the token is a spelling of. */
  lemma NormalisesExactly(token: string, w: string)
    ensures Unleeted(token) == w <==> Spells(token, w)
  {
    if |token| == |w| {
      forall i | 0 <= i < |w| ensures Unleet(token[i]) == w[i] <==> token[i] in Spellings(w[i]) {
        assert token[i] in "013" <==> token[i] == '0' || token[i] == '1' || token[i] == '3';
        assert w[i] in "013" <==> w[i] == '0' || w[i] == '1' || w[i] == '3';
      }
    }
  }

  function UnleetedAll(tokens: seq<string>): (r: seq<string>)
    ensures |r| == |tokens| && forall i :: 0 <= i < |tokens| ==> r[i] == Unleeted(tokens[i])
  {
    seq(|tokens|, i requires 0 <= i < |tokens| => Unleeted(tokens[i]))
  }

  // ----- the check -----

  function JoinSpaces(tokens: seq<string>): string {
    if tokens == [] then "" else if |tokens| == 1 then tokens[0] else tokens[0] + " " + JoinSpaces(tokens[1..])
  }

  predicate OccursAt(s: string, p: string, i: int) {
    0 <= i <= |s| - |p| && s[i..i + |p|] == p
  }

  predicate Contains(s: string, p: string) {
    exists i :: 0 <= i <= |s| && OccursAt(s, p, i)
  }

  ghost predicate Flagged(f: Filter, tokens: seq<string>) {
    || (exists w :: w in tokens && w in f.words)
    || (exists p :: p in f.phrases && Contains(JoinSpaces(tokens), p))
  }

  method CheckTokens(f: Filter, tokens: seq<string>) returns (r: FilterResult)
    ensures r.blocked <==> Flagged(f, tokens)
    ensures r.blocked ==> r.reason == "blocked_keyword"
    ensures r.blocked ==>
              (r.term in tokens && r.term in f.words) ||
              (r.term in f.phrases && Contains(JoinSpaces(tokens), r.term) && forall w :: w in tokens ==> w !in f.words)
  {
    for i := 0 to |tokens|
      invariant forall k :: 0 <= k < i ==> tokens[k] !in f.words
    {
      if tokens[i] in f.words {
        return FilterResult(true, "blocked_keyword", tokens[i]);
      }
    }
    var joined := JoinSpaces(tokens);
    for i := 0 to |f.phrases|
      invariant forall k :: 0 <= k < i ==> !Contains(joined, f.phrases[k])
    {
      if Contains(joined, f.phrases[i]) {
        return FilterResult(true, "blocked_keyword", f.phrases[i]);
      }
    }
    return FilterResult(false, "", "");
  }

  ghost predicate Blocked(f: Filter, text: string, isWord: CharClass) {
    || Flagged(f, Fields(text, PlainSeparator(isWord)))
    || Flagged(f, UnleetedAll(Fields(text, LeetSeparator(isWord))))
  }

  method CheckKeywords(f: Filter, lower: string, isWord: CharClass) returns (r: FilterResult)
    ensures r.blocked <==> Blocked(f, lower, isWord)
    ensures r.blocked ==> r.reason == "blocked_keyword" && (r.term in f.words || r.term in f.phrases)
  {
    var plain := Fields(lower, PlainSeparator(isWord));
    r := CheckTokens(f, plain);
    if r.blocked {
      return;
    }
    var tokens := Fields(lower, LeetSeparator(isWord));
    var normalized: seq<string> := [];
    for i := 0 to |tokens|
      invariant |normalized| == i && forall k :: 0 <= k < i ==> normalized[k] == Unleeted(tokens[k])
    {
      var token := NormalizeLeet(tokens[i]);
      normalized := normalized + [token];
    }
    assert normalized == UnleetedAll(tokens);
    r := CheckTokens(f, normalized);
  }

  // ----- what the passes guarantee -----

  /** The plain tokens are the plain tokens of the leet tokens, in order. */
  lemma PlainTokensRefineLeetTokens(text: string, isWord: CharClass)
    ensures Fields(text, PlainSeparator(isWord)) ==
            Refine(Fields(text, LeetSeparator(isWord)), PlainSeparator(isWord))
  {
    FinerFields(text, LeetSeparator(isWord), PlainSeparator(isWord));
  }

  lemma FieldsAcross(x: string, gap: string, y: string, sep: CharClass)
    requires gap != "" && forall c :: c in gap ==> sep(c)
    ensures Fields(x + gap + y, sep) == Fields(x, sep) + Fields(y, sep)
  {
    assert gap[0] in gap && gap[|gap| - 1] in gap;
    FieldsOfSeparators(gap, sep);
    FieldsConcat(x, gap, sep);
    FieldsConcat(x + gap, y, sep);
  }

  /** Spacing and punctuation cannot change the verdict: any run of separators may be
      replaced by any other. */
  lemma SeparatorsInterchangeable(f: Filter, isWord: CharClass, x: string, gap: string, gap': string, y: string)
    requires gap != "" && forall c :: c in gap ==> LeetSeparator(isWord)(c)
    requires gap' != "" && forall c :: c in gap' ==> LeetSeparator(isWord)(c)
    ensures Blocked(f, x + gap + y, isWord) <==> Blocked(f, x + gap' + y, isWord)
  {
    FieldsAcross(x, gap, y, PlainSeparator(isWord));
    FieldsAcross(x, gap', y, PlainSeparator(isWord));
    FieldsAcross(x, gap, y, LeetSeparator(isWord));
    FieldsAcross(x, gap', y, LeetSeparator(isWord));
  }

  // ----- the verdict in terms of the text -----

  lemma {:induction false} FieldsExtensional(t: string, sep: CharClass, sep': CharClass)
    requires forall c :: sep(c) <==> sep'(c)
    ensures Fields(t, sep) == Fields(t, sep')
  {
    if t != [] {
      FieldsExtensional(t[1..], sep, sep');
    }
  }

  /** Letters and digits make up words; in the second pass so do '@', '$' and '!'. */
  ghost predicate Separators(isWord: CharClass, plain: CharClass, leet: CharClass) {
    && (forall c :: plain(c) <==> !isWord(c))
    && (forall c :: leet(c) <==> !isWord(c) && c != '@' && c != '$' && c != '!')
  }

  lemma TokensOf(text: string, isWord: CharClass, plain: CharClass, leet: CharClass)
    requires Separators(isWord, plain, leet)
    ensures Fields(text, PlainSeparator(isWord)) == Fields(text, plain)
    ensures Fields(text, LeetSeparator(isWord)) == Fields(text, leet)
  {
    FieldsExtensional(text, PlainSeparator(isWord), plain);
    FieldsExtensional(text, LeetSeparator(isWord), leet);
  }

  ghost predicate WordFound(tokens: seq<string>, spelled: seq<string>, w: string) {
    w in tokens || exists i :: 0 <= i < |spelled| && Spells(spelled[i], w)
  }

  lemma WordsFlagged(tokens: seq<string>, w: string)
    ensures w in UnleetedAll(tokens) <==> exists i :: 0 <= i < |tokens| && Spells(tokens[i], w)
  {
    forall i | 0 <= i < |tokens| ensures UnleetedAll(tokens)[i] == w <==> Spells(tokens[i], w) {
      NormalisesExactly(tokens[i], w);
    }
  }

  /** The pieces of a phrase between its spaces. */
  function Words(p: string): (r: seq<string>)
    ensures |r| >= 1
    ensures forall w :: w in r ==> ' ' !in w
  {
    if p == "" then [""]
    else if p[0] == ' ' then [""] + Words(p[1..])
    else
      var r := Words(p[1..]);
      [[p[0]] + r[0]] + r[1..]
  }

  /** Two lists of pieces with the last of one and the first of the other run together. */
  function Seam(a: seq<string>, b: seq<string>): seq<string>
    requires a != [] && b != []
  {
    a[..|a| - 1] + [a[|a| - 1] + b[0]] + b[1..]
  }

  lemma SeamPrepend(x: string, a: seq<string>, b: seq<string>)
    requires a != [] && b != []
    ensures Seam([x] + a, b) == [x] + Seam(a, b)
  {
    var l := [x] + a;
    assert l[..|l| - 1] == [x] + a[..|a| - 1] && l[|l| - 1] == a[|a| - 1];
  }

  lemma SeamExtend(c: char, a: seq<string>, b: seq<string>)
    requires a != [] && b != []
    ensures Seam([[c] + a[0]] + a[1..], b) == [[c] + Seam(a, b)[0]] + Seam(a, b)[1..]
  {
    var l := [[c] + a[0]] + a[1..];
    if |a| == 1 {
      assert [c] + a[0] + b[0] == [c] + (a[0] + b[0]);
    } else {
      assert l[..|l| - 1] == [[c] + a[0]] + a[1..|a| - 1] && l[|l| - 1] == a[|a| - 1];
      assert Seam(a, b)[1..] == a[1..|a| - 1] + [a[|a| - 1] + b[0]] + b[1..];
    }
  }

  /** Cutting u + v cuts u and v, with the pieces at the seam run together. */
  lemma {:induction false} WordsConcat(u: string, v: string)
    ensures Words(u + v) == Seam(Words(u), Words(v))
  {
    if u == "" {
      assert u + v == v && "" + Words(v)[0] == Words(v)[0];
    } else {
      var a, b := Words(u[1..]), Words(v);
      assert (u + v)[1..] == u[1..] + v;
      WordsConcat(u[1..], v);
      if u[0] == ' ' {
        SeamPrepend("", a, b);
      } else {
        SeamExtend(u[0], a, b);
      }
    }
  }

  lemma {:induction false} WordsOfOne(w: string)
    requires ' ' !in w
    ensures Words(w) == [w]
  {
    if w != "" {
      WordsOfOne(w[1..]);
      assert w == [w[0]] + w[1..];
    }
  }

  lemma {:induction false} WordsOfJoin(tokens: seq<string>)
    requires tokens != [] && forall w :: w in tokens ==> ' ' !in w
    ensures Words(JoinSpaces(tokens)) == tokens
  {
    if |tokens| == 1 {
      WordsOfOne(tokens[0]);
    } else {
      WordsOfOne(tokens[0]);
      WordsOfJoin(tokens[1..]);
      var rest := " " + JoinSpaces(tokens[1..]);
      assert rest[1..] == JoinSpaces(tokens[1..]);
      assert Words(rest) == [""] + tokens[1..];
      WordsConcat(tokens[0], rest);
      assert tokens[0] + " " + JoinSpaces(tokens[1..]) == tokens[0] + rest;
      assert tokens[0] + "" == tokens[0];
    }
  }

  lemma {:induction false} JoinOfWords(p: string)
    ensures JoinSpaces(Words(p)) == p
  {
    if p != "" {
      var r := Words(p[1..]);
      JoinOfWords(p[1..]);
      assert p == [p[0]] + p[1..];
      if p[0] == ' ' {
        assert ([""] + r)[1..] == r;
      } else {
        assert ([[p[0]] + r[0]] + r[1..])[1..] == r[1..];
        assert |r| > 1 ==> [p[0]] + r[0] + " " + JoinSpaces(r[1..]) == [p[0]] + (r[0] + " " + JoinSpaces(r[1..]));
      }
    }
  }

  predicate EndsWith(t: string, w: string) {
    |w| <= |t| && t[|t| - |w|..] == w
  }

  predicate StartsWith(t: string, w: string) {
    |w| <= |t| && t[..|w|] == w
  }

  /** From the i-th on, the tokens are the words of a phrase: the first may begin and the
      last may end with something else. */
  ghost predicate StraddledAt(tokens: seq<string>, words: seq<string>, i: int) {
    && |words| >= 2 && 0 <= i && i + |words| <= |tokens|
    && EndsWith(tokens[i], words[0])
    && (forall k :: 0 < k < |words| - 1 ==> tokens[i + k] == words[k])
    && StartsWith(tokens[i + |words| - 1], words[|words| - 1])
  }

  ghost predicate Straddled(tokens: seq<string>, words: seq<string>) {
    exists i :: 0 <= i < |tokens| && StraddledAt(tokens, words, i)
  }

  lemma SeamsStraddle(a: seq<string>, ws: seq<string>, b: seq<string>)
    requires a != [] && |ws| >= 2 && b != []
    ensures StraddledAt(Seam(Seam(a, ws), b), ws, |a| - 1)
  {
    var l := Seam(a, ws);
    var tokens, i := Seam(l, b), |a| - 1;
    assert |l| == |a| + |ws| - 1 && l[i] == a[i] + ws[0];
    assert forall k :: 0 < k < |ws| ==> l[i + k] == ws[k];
    assert forall k :: 0 <= k < |l| - 1 ==> tokens[k] == l[k];
    assert tokens[i + |ws| - 1] == ws[|ws| - 1] + b[0];
  }

  /** Conversely such tokens are the pieces of some text around the phrase. */
  lemma StraddleIsSeam(tokens: seq<string>, ws: seq<string>, i: int) returns (a: seq<string>, b: seq<string>)
    requires StraddledAt(tokens, ws, i)
    ensures a != [] && b != [] && tokens == Seam(Seam(a, ws), b)
    ensures forall w :: w in a || w in b ==> exists t :: t in tokens && forall c :: c in w ==> c in t
  {
    var last := i + |ws| - 1;
    var first, final := tokens[i], tokens[last];
    a := tokens[..i] + [first[..|first| - |ws[0]|]];
    b := [final[|ws[|ws| - 1]|..]] + tokens[last + 1..];
    assert Seam(a, ws) == tokens[..last] + [ws[|ws| - 1]] by {
      assert a[..|a| - 1] == tokens[..i] && a[|a| - 1] + ws[0] == first;
      assert ws[1..] == tokens[i + 1..last] + [ws[|ws| - 1]];
    }
    assert ws[|ws| - 1] + b[0] == final;
    forall w | w in a || w in b ensures exists t :: t in tokens && forall c :: c in w ==> c in t {
      var t := if w in tokens then w else if w == a[|a| - 1] then first else final;
      assert t in tokens && forall c :: c in w ==> c in t;
    }
  }

  lemma OccurrenceStraddles(tokens: seq<string>, p: string)
    requires tokens != [] && (forall w :: w in tokens ==> ' ' !in w) && |Words(p)| >= 2
    requires Contains(JoinSpaces(tokens), p)
    ensures Straddled(tokens, Words(p))
  {
    hide Words, JoinSpaces, Seam, StraddledAt;
    var s := JoinSpaces(tokens);
    var at :| 0 <= at <= |s| && OccursAt(s, p, at);
    var u, v := s[..at], s[at + |p|..];
    assert s == u + p + v;
    WordsOfJoin(tokens);
    WordsConcat(u, p);
    WordsConcat(u + p, v);
    SeamsStraddle(Words(u), Words(p), Words(v));
    StraddledFits(tokens, Words(p), |Words(u)| - 1);
  }

  lemma StraddledFits(tokens: seq<string>, words: seq<string>, i: int)
    requires StraddledAt(tokens, words, i)
    ensures 0 <= i < |tokens|
  {
  }

  lemma StraddleOccurs(tokens: seq<string>, p: string, i: int)
    requires (forall w :: w in tokens ==> ' ' !in w) && StraddledAt(tokens, Words(p), i)
    ensures Contains(JoinSpaces(tokens), p)
  {
    hide Words, JoinSpaces, Seam, StraddledAt;
    var a, b := StraddleIsSeam(tokens, Words(p), i);
    var u, v := JoinSpaces(a), JoinSpaces(b);
    WordsOfJoin(a);
    WordsOfJoin(b);
    WordsConcat(u, p);
    WordsConcat(u + p, v);
    JoinOfWords(u + p + v);
    assert OccursAt(u + p + v, p, |u|);
  }

  lemma {:induction false} SeveralWords(p: string)
    ensures ' ' in p <==> |Words(p)| >= 2
  {
    if p != "" {
      SeveralWords(p[1..]);
      assert p == [p[0]] + p[1..];
    }
  }

  /** A phrase occurs in the joined tokens exactly when consecutive tokens are its words, the
      first up to what it begins with and the last up to what it ends with. */
  lemma PhraseOccursExactlyWhen(tokens: seq<string>, p: string)
    requires ' ' in p && forall w :: w in tokens ==> ' ' !in w
    ensures Contains(JoinSpaces(tokens), p) <==> Straddled(tokens, Words(p))
  {
    SeveralWords(p);
    if tokens != [] && Contains(JoinSpaces(tokens), p) {
      OccurrenceStraddles(tokens, p);
    }
    if i :| 0 <= i < |tokens| && StraddledAt(tokens, Words(p), i) {
      StraddleOccurs(tokens, p, i);
    }
  }

  /** The same with the words spelled in leet characters. */
  ghost predicate SpelledAt(tokens: seq<string>, words: seq<string>, i: int) {
    && |words| >= 2 && 0 <= i && i + |words| <= |tokens|
    && EndsSpelling(tokens[i], words[0])
    && (forall k :: 0 < k < |words| - 1 ==> Spells(tokens[i + k], words[k]))
    && StartsSpelling(tokens[i + |words| - 1], words[|words| - 1])
  }

  predicate EndsSpelling(t: string, w: string) {
    |w| <= |t| && Spells(t[|t| - |w|..], w)
  }

  predicate StartsSpelling(t: string, w: string) {
    |w| <= |t| && Spells(t[..|w|], w)
  }

  lemma UnleetedEnds(t: string, w: string)
    ensures EndsWith(Unleeted(t), w) <==> EndsSpelling(t, w)
    ensures StartsWith(Unleeted(t), w) <==> StartsSpelling(t, w)
  {
    if |w| <= |t| {
      hide Unleet;
      assert Unleeted(t)[|t| - |w|..] == Unleeted(t[|t| - |w|..]);
      assert Unleeted(t)[..|w|] == Unleeted(t[..|w|]);
      NormalisesExactly(t[|t| - |w|..], w);
      NormalisesExactly(t[..|w|], w);
    }
  }

  lemma UnleetedStraddles(tokens: seq<string>, words: seq<string>, i: int)
    ensures StraddledAt(UnleetedAll(tokens), words, i) <==> SpelledAt(tokens, words, i)
  {
    hide Unleeted, Spells, EndsWith, StartsWith, EndsSpelling, StartsSpelling;
    if |words| >= 2 && 0 <= i && i + |words| <= |tokens| {
      UnleetedEnds(tokens[i], words[0]);
      UnleetedEnds(tokens[i + |words| - 1], words[|words| - 1]);
      forall k | 0 < k < |words| - 1
        ensures UnleetedAll(tokens)[i + k] == words[k] <==> Spells(tokens[i + k], words[k])
      {
        NormalisesExactly(tokens[i + k], words[k]);
      }
    }
  }

  ghost predicate PhraseFound(tokens: seq<string>, spelled: seq<string>, p: string) {
    Straddled(tokens, Words(p)) || exists i :: 0 <= i < |spelled| && SpelledAt(spelled, Words(p), i)
  }

  lemma NoSpaceInTokens(text: string, sep: CharClass)
    requires sep(' ')
    ensures forall w :: w in Fields(text, sep) ==> ' ' !in w
    ensures forall w :: w in UnleetedAll(Fields(text, sep)) ==> ' ' !in w
  {
    var tokens := Fields(text, sep);
    forall w | w in UnleetedAll(tokens) ensures ' ' !in w {
      var i :| 0 <= i < |tokens| && UnleetedAll(tokens)[i] == w;
      assert tokens[i] in tokens;
      forall k | 0 <= k < |w| ensures w[k] != ' ' {
        assert tokens[i][k] in tokens[i];
      }
    }
  }

  lemma PhraseFlagged(plain: seq<string>, spelled: seq<string>, p: string)
    requires ' ' in p
    requires (forall w :: w in plain ==> ' ' !in w) && (forall w :: w in UnleetedAll(spelled) ==> ' ' !in w)
    ensures Contains(JoinSpaces(plain), p) || Contains(JoinSpaces(UnleetedAll(spelled)), p) <==>
            PhraseFound(plain, spelled, p)
  {
    hide JoinSpaces, Words, Contains, StraddledAt, SpelledAt;
    PhraseOccursExactlyWhen(plain, p);
    PhraseOccursExactlyWhen(UnleetedAll(spelled), p);
    forall i ensures StraddledAt(UnleetedAll(spelled), Words(p), i) <==> SpelledAt(spelled, Words(p), i) {
      UnleetedStraddles(spelled, Words(p), i);
    }
  }

  /** What is blocked, read off the tokens of the text: a blocked word as a token or spelled
      by one, or consecutive tokens that are or spell the words of a blocked phrase. */
  lemma VerdictExactlyWhen(f: Filter, text: string, isWord: CharClass, plain: CharClass, leet: CharClass)
    requires Separators(isWord, plain, leet) && !isWord(' ') && forall p :: p in f.phrases ==> ' ' in p
    ensures Blocked(f, text, isWord) <==>
              || (exists w :: w in f.words && WordFound(Fields(text, plain), Fields(text, leet), w))
              || (exists p :: p in f.phrases && PhraseFound(Fields(text, plain), Fields(text, leet), p))
  {
    var tokens, spelled := Fields(text, plain), Fields(text, leet);
    TokensOf(text, isWord, plain, leet);
    NoSpaceInTokens(text, plain);
    NoSpaceInTokens(text, leet);
    hide Fields, JoinSpaces, Words, Contains, Spells, PhraseFound;
    forall w | w in f.words
      ensures w in tokens || w in UnleetedAll(spelled) <==> WordFound(tokens, spelled, w)
    {
      WordsFlagged(spelled, w);
    }
    hide WordFound;
    forall p | p in f.phrases
      ensures Contains(JoinSpaces(tokens), p) || Contains(JoinSpaces(UnleetedAll(spelled)), p) <==>
              PhraseFound(tokens, spelled, p)
    {
      PhraseFlagged(tokens, spelled, p);
    }
  }

  /** From the list of terms to the verdict: a text is blocked exactly when it holds a term
      without spaces as a word, or one with spaces as a phrase. */
  lemma LoadedVerdict(f: Filter, terms: set<string>, text: string, isWord: CharClass, plain: CharClass, leet: CharClass)
    requires Loads(f, terms) && Separators(isWord, plain, leet) && !isWord(' ')
    ensures Blocked(f, text, isWord) <==>
              || (exists w :: w in terms && w != "" && ' ' !in w &&
                    WordFound(Fields(text, plain), Fields(text, leet), w))
              || (exists p :: p in terms && ' ' in p && PhraseFound(Fields(text, plain), Fields(text, leet), p))
  {
    hide Fields, WordFound, PhraseFound, Blocked;
    VerdictExactlyWhen(f, text, isWord, plain, leet);
  }

  /** The words laid out with the gaps between them. */
  function Laid(words: seq<string>, gaps: seq<string>): string
    requires |words| == |gaps| + 1
  {
    if |words| == 1 then words[0] else words[0] + gaps[0] + Laid(words[1..], gaps[1..])
  }

  ghost predicate Solid(w: string, sep: CharClass) {
    w != "" && forall c :: c in w ==> !sep(c)
  }

  ghost predicate Hollow(g: string, sep: CharClass) {
    g != "" && forall c :: c in g ==> sep(c)
  }

  /** Every word is free of separators, every gap consists of them. */
  ghost predicate SetApart(words: seq<string>, gaps: seq<string>, sep: CharClass) {
    && |words| == |gaps| + 1
    && (forall i :: 0 <= i < |words| ==> Solid(words[i], sep))
    && (forall i :: 0 <= i < |gaps| ==> Hollow(gaps[i], sep))
  }

  lemma {:induction false} FieldsLaid(words: seq<string>, gaps: seq<string>, sep: CharClass)
    requires SetApart(words, gaps, sep)
    ensures Fields(Laid(words, gaps), sep) == words
  {
    hide Fields;
    assert Solid(words[0], sep);
    FieldsOfToken(words[0], sep);
    if |words| > 1 {
      assert Hollow(gaps[0], sep);
      FieldsLaid(words[1..], gaps[1..], sep);
      FieldsAcross(words[0], gaps[0], Laid(words[1..], gaps[1..]), sep);
    }
  }

  ghost predicate Bounded(x: string, y: string, sep: CharClass) {
    (x == [] || sep(x[|x| - 1])) && (y == [] || sep(y[0]))
  }

  lemma FieldsLaidWithin(x: string, words: seq<string>, gaps: seq<string>, y: string, sep: CharClass)
    requires SetApart(words, gaps, sep) && Bounded(x, y, sep)
    ensures Fields(x + Laid(words, gaps) + y, sep) == Fields(x, sep) + words + Fields(y, sep)
  {
    hide Fields, Solid, Hollow, Laid;
    FieldsLaid(words, gaps, sep);
    FieldsConcat(x, Laid(words, gaps), sep);
    FieldsConcat(x + Laid(words, gaps), y, sep);
  }

  lemma SpelledOut(a: seq<string>, tokens: seq<string>, b: seq<string>, words: seq<string>)
    requires |tokens| == |words| >= 2 && forall k :: 0 <= k < |words| ==> Spells(tokens[k], words[k])
    ensures SpelledAt(a + tokens + b, words, |a|)
  {
    var all, n := a + tokens + b, |words|;
    assert forall k :: 0 <= k < n ==> all[|a| + k] == tokens[k];
    assert all[|a|] == tokens[0] && all[|a| + n - 1] == tokens[n - 1];
    assert tokens[0][|tokens[0]| - |words[0]|..] == tokens[0] && tokens[n - 1][..|words[n - 1]|] == tokens[n - 1];
  }

  lemma StandsOut(a: seq<string>, words: seq<string>, b: seq<string>)
    requires |words| >= 2
    ensures StraddledAt(a + words + b, words, |a|)
  {
    var all, n := a + words + b, |words|;
    assert forall k :: 0 <= k < n ==> all[|a| + k] == words[k];
    assert all[|a|] == words[0] && all[|a| + n - 1] == words[n - 1];
  }

  /** A blocked phrase is caught however its words are set apart, and however they are
      spelled in letters, digits, '@', '$' and '!'. */
  lemma DisguisedPhraseBlocked(f: Filter, isWord: CharClass, leet: CharClass, p: string,
                               x: string, tokens: seq<string>, gaps: seq<string>, y: string)
    requires !isWord(' ') && forall c :: leet(c) <==> !isWord(c) && c != '@' && c != '$' && c != '!'
    requires p in f.phrases && |Words(p)| >= 2 && |tokens| == |Words(p)|
    requires forall i :: 0 <= i < |tokens| ==> Spells(tokens[i], Words(p)[i])
    requires SetApart(tokens, gaps, leet) && Bounded(x, y, leet)
    ensures Blocked(f, x + Laid(tokens, gaps) + y, isWord)
  {
    hide Fields, Words, JoinSpaces, Laid, Contains, Solid, Hollow, Bounded, Spells, SpelledAt, StraddledAt;
    var text := x + Laid(tokens, gaps) + y;
    FieldsLaidWithin(x, tokens, gaps, y, leet);
    FieldsExtensional(text, LeetSeparator(isWord), leet);
    NoSpaceInTokens(text, leet);
    var all, i := Fields(text, leet), |Fields(x, leet)|;
    SpelledOut(Fields(x, leet), tokens, Fields(y, leet), Words(p));
    UnleetedStraddles(all, Words(p), i);
    StraddleOccurs(UnleetedAll(all), p, i);
  }

  /** In its plain spelling it is caught between any characters that are neither letters nor
      digits. */
  lemma PhraseBlocked(f: Filter, isWord: CharClass, plain: CharClass, p: string,
                      x: string, gaps: seq<string>, y: string)
    requires !isWord(' ') && forall c :: plain(c) <==> !isWord(c)
    requires p in f.phrases && |Words(p)| >= 2
    requires SetApart(Words(p), gaps, plain) && Bounded(x, y, plain)
    ensures Blocked(f, x + Laid(Words(p), gaps) + y, isWord)
  {
    hide Fields, Words, JoinSpaces, Laid, Contains, Solid, Hollow, Bounded, StraddledAt;
    var text := x + Laid(Words(p), gaps) + y;
    FieldsLaidWithin(x, Words(p), gaps, y, plain);
    FieldsExtensional(text, PlainSeparator(isWord), plain);
    NoSpaceInTokens(text, plain);
    StandsOut(Fields(x, plain), Words(p), Fields(y, plain));
    StraddleOccurs(Fields(text, plain), p, |Fields(x, plain)|);
  }

  /** A delimited token that spells a blocked word is always caught. */
  lemma DisguisedWordBlocked(f: Filter, isWord: CharClass, leet: CharClass,
                             x: string, token: string, y: string, w: string)
    requires forall c :: leet(c) <==> !isWord(c) && c != '@' && c != '$' && c != '!'
    requires token != "" && forall c :: c in token ==> isWord(c) || c == '@' || c == '$' || c == '!'
    requires (x == [] || leet(x[|x| - 1])) && (y == [] || leet(y[0]))
    requires w in f.words && Spells(token, w)
    ensures Blocked(f, x + token + y, isWord)
  {
    var text := x + token + y;
    RunIsToken(x, token, y, leet);
    FieldsExtensional(text, LeetSeparator(isWord), leet);
    NormalisesExactly(token, w);
    var tokens := Fields(text, leet);
    var i := |Fields(x, leet)|;
    assert tokens[i] == token;
    assert UnleetedAll(tokens)[i] == Unleeted(token);
  }

  // ----- which blocked words can ever match -----

  /** Some pass over some text produces the token. */
  ghost predicate Matchable(w: string, isWord: CharClass) {
    exists text: string ::
      w in Fields(text, PlainSeparator(isWord)) || w in UnleetedAll(Fields(text, LeetSeparator(isWord)))
  }

  /** A stored word is live exactly when it consists of letters and digits; one with any
      other character (punctuation, a tab) can never block anything. */
  lemma MatchableExactlyWhen(w: string, isWord: CharClass)
    requires isWord('a') && isWord('e') && isWord('i') && isWord('o') && isWord('s')
    ensures Matchable(w, isWord) <==> w != "" && forall c :: c in w ==> isWord(c)
  {
    if w != "" && forall c :: c in w ==> isWord(c) {
      FieldsOfToken(w, PlainSeparator(isWord));
      assert w in Fields(w, PlainSeparator(isWord));
    }
    if text: string :|
        w in Fields(text, PlainSeparator(isWord)) || w in UnleetedAll(Fields(text, LeetSeparator(isWord))) {
      if w in UnleetedAll(Fields(text, LeetSeparator(isWord))) {
        var tokens := Fields(text, LeetSeparator(isWord));
        var i :| 0 <= i < |tokens| && UnleetedAll(tokens)[i] == w;
        assert tokens[i] in tokens;
        UnleetedToken(tokens[i], isWord);
      } else {
        assert forall c :: c in w ==> !PlainSeparator(isWord)(c);
      }
    }
  }

  /** A term with a hyphen is stored as a word and blocks nothing, not even itself. */
  lemma HyphenatedWordNeverMatches(isWord: CharClass)
    requires isWord('a') && isWord('e') && isWord('i') && isWord('o') && isWord('s') && !isWord('-')
    ensures Loads(Filter({"a-b"}, []), {"a-b"})
    ensures forall text :: !Blocked(Filter({"a-b"}, []), text, isWord)
  {
    assert "a-b"[1] == '-' && '-' in "a-b" && ' ' !in "a-b";
    MatchableExactlyWhen("a-b", isWord);
  }

  lemma UnleetedToken(token: string, isWord: CharClass)
    requires isWord('a') && isWord('e') && isWord('i') && isWord('o') && isWord('s')
    requires token != "" && forall c :: c in token ==> !LeetSeparator(isWord)(c)
    ensures Unleeted(token) != "" && forall c :: c in Unleeted(token) ==> isWord(c)
  {
    forall c | c in Unleeted(token) ensures isWord(c) {
      var i :| 0 <= i < |token| && Unleeted(token)[i] == c;
      assert token[i] in token;
    }
  }
}
