/** `_tokenize`, `_lexical_score` and `_cosine_similarity` (backend/app/services/indexing.py) over exact reals. */
module Similarity {
  import opened Options
  import opened FileChunks

  // ----- Cosine similarity -----

  type Vector = seq<real>

  /** A product, named so that proofs can treat it as an unknown. */
  function Times(x: real, y: real): real { x * y }

  function Dot(a: Vector, b: Vector): real
    requires |a| == |b|
  {
    if a == [] then 0.0 else Times(a[0], b[0]) + Dot(a[1..], b[1..])
  }

  /** `math.sqrt` over exact reals. */
  ghost predicate IsSqrt(sqrt: real -> real) {
    forall x :: x >= 0.0 ==> sqrt(x) >= 0.0 && sqrt(x) * sqrt(x) == x
  }

  function Cosine(a: Vector, b: Vector, sqrt: real -> real): real {
    if a == [] || b == [] || |a| != |b| then 0.0
    else
      var ma, mb := sqrt(Dot(a, a)), sqrt(Dot(b, b));
      if ma == 0.0 || mb == 0.0 then 0.0
      else
        ProductNonZero(ma, mb);
        Dot(a, b) / Times(ma, mb)
  }

  // Laws of products, one at a time.

  lemma {:induction false} ProductPositive(x: real, y: real)
    requires x > 0.0 && y > 0.0
    ensures Times(x, y) > 0.0
  {
  }

  lemma {:induction false} ProductNonZero(x: real, y: real)
    requires x != 0.0 && y != 0.0
    ensures Times(x, y) != 0.0
  {
  }

  lemma {:induction false} TimesZero(x: real)
    ensures Times(x, 0.0) == 0.0 && Times(0.0, x) == 0.0
  {
  }

  lemma {:induction false} TimesOne(x: real)
    ensures Times(x, 1.0) == x && Times(x, -1.0) == -x
  {
  }

  lemma {:induction false} TimesCommutes(x: real, y: real)
    ensures Times(x, y) == Times(y, x)
  {
  }

  lemma {:induction false} TimesAssociates(x: real, y: real, z: real)
    ensures Times(Times(x, y), z) == Times(x, Times(y, z))
  {
  }

  lemma {:induction false} TimesDistributes(x: real, y: real, z: real)
    ensures Times(x, y + z) == Times(x, y) + Times(x, z)
    ensures Times(y + z, x) == Times(y, x) + Times(z, x)
  {
  }

  lemma {:induction false} SquareSign(x: real)
    ensures Times(x, x) >= 0.0
    ensures x != 0.0 ==> Times(x, x) > 0.0
  {
    if x > 0.0 {
      ProductPositive(x, x);
    } else if x < 0.0 {
      ProductPositive(-x, -x);
      assert (-x) * (-x) == x * x;
    }
  }

  lemma {:induction false} ScaleBy(k: real, x: real, y: real)
    requires k > 0.0 && x <= y
    ensures Times(k, x) <= Times(k, y)
    ensures x < y ==> Times(k, x) < Times(k, y)
  {
    hide Times;
    TimesDistributes(k, x, y - x);
    if x < y {
      ProductPositive(k, y - x);
    } else {
      TimesZero(k);
    }
  }

  lemma {:induction false} SquareGrows(p: real, m: real)
    requires m > 0.0 && p > m
    ensures Times(p, p) > Times(m, m)
  {
    hide Times;
    ScaleBy(p, m, p);
    ScaleBy(m, m, p);
    TimesCommutes(m, p);
  }

  lemma {:induction false} SquareOrder(p: real, m: real)
    requires m > 0.0 && Times(p, p) <= Times(m, m)
    ensures -m <= p <= m
  {
    assert Times(-p, -p) == Times(p, p);
    hide Times;
    if p > m {
      SquareGrows(p, m);
    } else if -p > m {
      SquareGrows(-p, m);
    }
  }

  lemma {:induction false} QuotientWithin(p: real, m: real)
    requires m > 0.0 && -m <= p <= m
    ensures -1.0 <= p / m <= 1.0
    ensures p / m == 1.0 <==> p == m
    ensures p >= 0.0 ==> p / m >= 0.0
  {
    var c := p / m;
    assert Times(m, c) == p;
    TimesOne(m);
    TimesZero(m);
    hide Times;
    if c > 1.0 {
      ScaleBy(m, 1.0, c);
    } else if c < -1.0 {
      ScaleBy(m, c, -1.0);
    }
    if c < 1.0 {
      ScaleBy(m, c, 1.0);
    }
    if c < 0.0 {
      ScaleBy(m, c, 0.0);
    }
  }

  // Cauchy-Schwarz.

  lemma {:induction false} DotSymmetric(a: Vector, b: Vector)
    requires |a| == |b|
    ensures Dot(a, b) == Dot(b, a)
  {
    if a != [] {
      DotSymmetric(a[1..], b[1..]);
      TimesCommutes(a[0], b[0]);
    }
  }

  /** The squared length of t*a - b from the three dot products. */
  function Quadratic(aa: real, ab: real, bb: real, t: real): real {
    Times(aa, Times(t, t)) - 2.0 * Times(ab, t) + bb
  }

  lemma {:induction false} QuadraticAdds(aa: real, ab: real, bb: real, x: real, y: real, t: real)
    requires Quadratic(aa, ab, bb, t) >= 0.0
    ensures Quadratic(Times(x, x) + aa, Times(x, y) + ab, Times(y, y) + bb, t) >= 0.0
  {
    SquareSign(Times(x, t) - y);
    SquareOfDifference(x, y, t);
    hide Times;
    TimesDistributes(Times(t, t), Times(x, x), aa);
    TimesDistributes(t, Times(x, y), ab);
  }

  lemma {:induction false} SquareOfDifference(x: real, y: real, t: real)
    ensures Times(Times(x, t) - y, Times(x, t) - y)
         == Times(Times(x, x), Times(t, t)) - 2.0 * Times(Times(x, y), t) + Times(y, y)
  {
  }

  lemma {:induction false} QuadraticIsNonNegative(a: Vector, b: Vector, t: real)
    requires |a| == |b|
    ensures Quadratic(Dot(a, a), Dot(a, b), Dot(b, b), t) >= 0.0
  {
    hide Times;
    if a == [] {
      TimesZero(Times(t, t));
      TimesZero(t);
    } else {
      QuadraticIsNonNegative(a[1..], b[1..], t);
      QuadraticAdds(Dot(a[1..], a[1..]), Dot(a[1..], b[1..]), Dot(b[1..], b[1..]), a[0], b[0], t);
    }
  }

  lemma {:induction false} SquaresAreNonNegative(a: Vector)
    ensures Dot(a, a) >= 0.0
  {
    hide Times;
    if a != [] {
      SquaresAreNonNegative(a[1..]);
      SquareSign(a[0]);
    }
  }

  lemma {:induction false} ZeroVectorDot(a: Vector, b: Vector)
    requires |a| == |b| && Dot(a, a) == 0.0
    ensures Dot(a, b) == 0.0
  {
    hide Times;
    if a != [] {
      SquaresAreNonNegative(a[1..]);
      SquareSign(a[0]);
      ZeroVectorDot(a[1..], b[1..]);
      TimesZero(b[0]);
    }
  }

  lemma {:induction false} Discriminant(aa: real, ab: real, bb: real)
    requires aa > 0.0 && Quadratic(aa, ab, bb, ab / aa) >= 0.0
    ensures Times(ab, ab) <= Times(aa, bb)
  {
    var t := ab / aa;
    assert Times(aa, t) == ab;
    hide Times;
    TimesAssociates(aa, t, t);
    ScaleBy(aa, Times(ab, t), bb);
    TimesAssociates(aa, ab, t);
    TimesCommutes(aa, ab);
    TimesAssociates(ab, aa, t);
  }

  /** Cauchy-Schwarz for vectors of any length. */
  lemma {:induction false} CauchySchwarz(a: Vector, b: Vector)
    requires |a| == |b|
    ensures Dot(a, b) * Dot(a, b) <= Dot(a, a) * Dot(b, b)
  {
    hide Dot, Quadratic;
    SquaresAreNonNegative(a);
    if Dot(a, a) == 0.0 {
      ZeroVectorDot(a, b);
    } else {
      QuadraticIsNonNegative(a, b, Dot(a, b) / Dot(a, a));
      Discriminant(Dot(a, a), Dot(a, b), Dot(b, b));
    }
  }

  /** Cosine similarity does not depend on the order of its arguments. */
  lemma {:induction false} CosineSymmetric(a: Vector, b: Vector, sqrt: real -> real)
    ensures Cosine(a, b, sqrt) == Cosine(b, a, sqrt)
  {
    hide Times, Dot;
    if a != [] && |a| == |b| {
      DotSymmetric(a, b);
      TimesCommutes(sqrt(Dot(a, a)), sqrt(Dot(b, b)));
    }
  }

  /** The dot product is the sum of the products of the entries. */
  lemma {:induction false} DotAddsUp(a: Vector, b: Vector, x: real, y: real)
    requires |a| == |b|
    ensures Dot([], []) == 0.0
    ensures Dot([x] + a, [y] + b) == x * y + Dot(a, b)
  {
    assert ([x] + a)[1..] == a && ([y] + b)[1..] == b;
  }

  /**
   Multiplied by both lengths the score is the dot product, and it is zero for vectors that cannot be compared:
   vectors of different lengths, and zeros.
   */
  ghost predicate IsCosine(score: real, a: Vector, b: Vector, sqrt: real -> real) {
    if |a| != |b| then score == 0.0
    else
      && score * (sqrt(Dot(a, a)) * sqrt(Dot(b, b))) == Dot(a, b)
      && (Dot(a, a) == 0.0 || Dot(b, b) == 0.0 ==> score == 0.0)
  }

  /** Cosine similarity is the dot product over the product of the lengths. */
  lemma {:induction false} CosineIsNormalizedDot(a: Vector, b: Vector, sqrt: real -> real)
    requires IsSqrt(sqrt)
    ensures IsCosine(Cosine(a, b, sqrt), a, b, sqrt)
  {
    if |a| == |b| {
      SquaresAreNonNegative(a);
      SquaresAreNonNegative(b);
      var ma, mb := sqrt(Dot(a, a)), sqrt(Dot(b, b));
      assert ma * ma == Dot(a, a) && mb * mb == Dot(b, b);
      RootIsZeroIff(ma, Dot(a, a));
      RootIsZeroIff(mb, Dot(b, b));
      if Dot(a, a) == 0.0 {
        ZeroVectorDot(a, b);
      } else if Dot(b, b) == 0.0 {
        ZeroVectorDot(b, a);
        DotSymmetric(a, b);
      } else {
        MultipliedBack(Dot(a, b), ma, mb);
      }
      hide Dot, IsSqrt;
      if Dot(a, a) == 0.0 || Dot(b, b) == 0.0 {
        assert ma == 0.0 || mb == 0.0;
        TimesZero(ma);
        TimesZero(mb);
        assert ma * mb == Times(ma, mb) == 0.0;
      }
    }
  }

  lemma {:induction false} RootIsZeroIff(m: real, square: real)
    requires m * m == square
    ensures m == 0.0 <==> square == 0.0
  {
    if m != 0.0 {
      ProductNonZero(m, m);
    }
  }

  lemma {:induction false} MultipliedBack(p: real, x: real, y: real)
    requires x != 0.0 && y != 0.0
    ensures Times(x, y) != 0.0 && p / Times(x, y) * (x * y) == p
  {
    ProductNonZero(x, y);
    assert Times(x, y) == x * y;
    hide Times;
    DividedBack(p, x * y);
  }

  lemma {:induction false} DividedBack(p: real, m: real)
    requires m != 0.0
    ensures p / m * m == p
  {
  }

  /** Cosine similarity lies within [-1, 1] for all vectors. */
  lemma {:induction false} CosineBounds(a: Vector, b: Vector, sqrt: real -> real)
    requires IsSqrt(sqrt)
    ensures -1.0 <= Cosine(a, b, sqrt) <= 1.0
  {
    if a != [] && |a| == |b| {
      SquaresAreNonNegative(a);
      SquaresAreNonNegative(b);
      CauchySchwarz(a, b);
      var ma, mb := sqrt(Dot(a, a)), sqrt(Dot(b, b));
      assert ma >= 0.0 && Times(ma, ma) == Dot(a, a) && mb >= 0.0 && Times(mb, mb) == Dot(b, b);
      assert Times(Dot(a, b), Dot(a, b)) <= Times(Times(ma, ma), Times(mb, mb));
      hide Dot, Times, IsSqrt;
      if ma != 0.0 && mb != 0.0 {
        CosineQuotient(Dot(a, b), ma, mb);
      }
    }
  }

  lemma {:induction false} CosineQuotient(p: real, x: real, y: real)
    requires x > 0.0 && y > 0.0 && Times(p, p) <= Times(Times(x, x), Times(y, y))
    ensures Times(x, y) > 0.0 && -1.0 <= p / Times(x, y) <= 1.0
  {
    ProductPositive(x, y);
    assert Times(Times(x, x), Times(y, y)) == Times(Times(x, y), Times(x, y));
    hide Times;
    SquareOrder(p, Times(x, y));
    QuotientWithin(p, Times(x, y));
  }

  /** A vector with some non-zero entry is exactly similar to itself. */
  lemma {:induction false} CosineOfItself(a: Vector, sqrt: real -> real)
    requires IsSqrt(sqrt) && a != [] && Dot(a, a) != 0.0
    ensures Cosine(a, a, sqrt) == 1.0
  {
    SquaresAreNonNegative(a);
    var m := sqrt(Dot(a, a));
    assert Times(m, m) == Dot(a, a);
    TimesZero(m);
    hide Dot, Times, IsSqrt;
    QuotientWithin(Dot(a, a), Times(m, m));
  }

  // ----- Tokens -----

  predicate IsTokenStart(c: char) {
    'A' <= c <= 'Z' || 'a' <= c <= 'z' || c == '_'
  }

  predicate IsTokenPart(c: char) {
    IsTokenStart(c) || '0' <= c <= '9' || c == '.'
  }

  function FoldChar(c: char): char {
    if 'A' <= c <= 'Z' then (c as int + 32) as char else c
  }

  /** `str.casefold` on the ASCII tokens the pattern admits. */
  function Fold(token: string): (folded: string)
    ensures |folded| == |token|
  {
    seq(|token|, i requires 0 <= i < |token| => FoldChar(token[i]))
  }

  /** The length of the longest prefix of token characters. */
  function RunLength(text: string): (n: nat)
    ensures n <= |text|
    ensures n < |text| ==> !IsTokenPart(text[n])
    ensures text != "" && IsTokenPart(text[0]) ==> n > 0
  {
    if text == "" || !IsTokenPart(text[0]) then 0 else 1 + RunLength(text[1..])
  }

  /** `re.findall` of the identifier pattern, folded. */
  function Tokenize(text: string): seq<string> {
    if text == "" then []
    else if !IsTokenStart(text[0]) then Tokenize(text[1..])
    else
      var n := RunLength(text);
      [Fold(text[..n])] + Tokenize(text[n..])
  }

  lemma {:induction false} RunBeforeSpace(a: string, b: string)
    ensures RunLength(a + " " + b) == RunLength(a)
  {
    var text := a + " " + b;
    if a != "" && IsTokenPart(a[0]) {
      assert text[1..] == a[1..] + " " + b;
      RunBeforeSpace(a[1..], b);
    } else {
      assert text[0] == if a == "" then ' ' else a[0];
    }
  }

  /** Joining texts with a space joins their token lists. */
  lemma {:induction false} TokensOfJoined(a: string, b: string)
    ensures Tokenize(a + " " + b) == Tokenize(a) + Tokenize(b)
    decreases |a|
  {
    hide RunLength, Fold;
    var text := a + " " + b;
    if a == "" {
      assert text[0] == ' ' && text[1..] == b;
    } else if !IsTokenStart(a[0]) {
      assert text[0] == a[0] && text[1..] == a[1..] + " " + b;
      TokensOfJoined(a[1..], b);
    } else {
      RunBeforeSpace(a, b);
      var n := RunLength(a);
      assert text[..n] == a[..n] && text[n..] == a[n..] + " " + b;
      TokensOfJoined(a[n..], b);
    }
  }

  /** The ASCII codes a token may start with and go on with, and what case folding makes of them. */
  lemma {:induction false} TokenCharacters(c: char)
    ensures IsTokenStart(c) <==> 65 <= c as int <= 90 || 97 <= c as int <= 122 || c as int == 95
    ensures IsTokenPart(c) <==> IsTokenStart(c) || 48 <= c as int <= 57 || c as int == 46
    ensures FoldChar(c) as int == if 65 <= c as int <= 90 then c as int + 32 else c as int
  {
  }

  /** Whether a text is empty or begins with a character that cannot go on a token. */
  predicate EndsToken(rest: string) { rest == "" || !IsTokenPart(rest[0]) }

  lemma {:induction false} RunOfToken(token: string, rest: string)
    requires forall i :: 0 <= i < |token| ==> IsTokenPart(token[i])
    requires EndsToken(rest)
    ensures RunLength(token + rest) == |token|
  {
    if token == "" {
      assert token + rest == rest;
    } else {
      assert (token + rest)[1..] == token[1..] + rest;
      RunOfToken(token[1..], rest);
    }
  }

  /** Reading on: other characters are skipped, and a token is read to its last character and folded. */
  lemma {:induction false} TokensAreRead(other: char, token: string, rest: string)
    ensures Tokenize("") == []
    ensures !IsTokenStart(other) ==> Tokenize([other] + rest) == Tokenize(rest)
    ensures token != "" && IsTokenStart(token[0]) && (forall i :: 0 <= i < |token| ==> IsTokenPart(token[i]))
            && EndsToken(rest) ==>
              exists folded: string :: Tokenize(token + rest) == [folded] + Tokenize(rest) && IsFolded(folded, token)
  {
    assert ([other] + rest)[1..] == rest;
    if token != "" && IsTokenStart(token[0]) && (forall i :: 0 <= i < |token| ==> IsTokenPart(token[i]))
       && EndsToken(rest) {
      RunOfToken(token, rest);
      var text := token + rest;
      assert text[..|token|] == token && text[|token|..] == rest;
      assert Tokenize(text) == [Fold(token)] + Tokenize(rest) && IsFolded(Fold(token), token);
    }
  }

  predicate IsFolded(folded: string, token: string) {
    |folded| == |token| && forall i :: 0 <= i < |token| ==> folded[i] == FoldChar(token[i])
  }

  // ----- Lexical score -----

  /** The distinct tokens in order of first appearance, as a `Counter` lists its keys. */
  function Keys(tokens: seq<string>): (keys: seq<string>)
    ensures forall k :: k in keys <==> k in tokens
    ensures forall i, j :: 0 <= i < j < |keys| ==> keys[i] != keys[j]
  {
    if tokens == [] then []
    else
      var front, last := Keys(tokens[..|tokens| - 1]), tokens[|tokens| - 1];
      assert forall k :: k in tokens <==> k in tokens[..|tokens| - 1] || k == last;
      if last in front then front else front + [last]
  }

  function Smaller(a: nat, b: nat): nat { if a <= b then a else b }

  function Overlap(keys: seq<string>, query: multiset<string>, content: multiset<string>): nat {
    if keys == [] then 0 else Smaller(query[keys[0]], content[keys[0]]) + Overlap(keys[1..], query, content)
  }

  function TokenScore(query: seq<string>, content: seq<string>): real {
    if query == [] || content == [] then 0.0
    else (Overlap(Keys(query), multiset(query), multiset(content)) as real) / (|query| as real)
  }

  function LexicalScore(query: string, content: string, symbolName: Option<string>,
                        qualifiedName: Option<string>): real {
    TokenScore(Tokenize(query), Tokenize(JoinWith(' ', Present([symbolName, qualifiedName, Some(content)]))))
  }

  lemma {:induction false} OverlapIsIntersection(keys: seq<string>, query: multiset<string>,
                                                 content: multiset<string>, rest: multiset<string>)
    requires forall i, j :: 0 <= i < j < |keys| ==> keys[i] != keys[j]
    requires forall k :: k in rest ==> k in keys && rest[k] == (query * content)[k]
    requires forall k :: k in keys ==> rest[k] == (query * content)[k]
    ensures Overlap(keys, query, content) == |rest|
  {
    if keys == [] {
      assert rest == multiset{};
    } else {
      var k := keys[0];
      var less := rest[k := 0];
      assert forall j :: j in keys[1..] ==> j != k && j in keys;
      assert forall j :: j in less ==> j in keys[1..];
      OverlapIsIntersection(keys[1..], query, content, less);
      assert rest == less + multiset{}[k := rest[k]];
    }
  }

  /** The summed minimum counts are the size of the multiset intersection. */
  lemma {:induction false} OverlapOfTokens(query: seq<string>, content: seq<string>)
    ensures Overlap(Keys(query), multiset(query), multiset(content)) == |multiset(query) * multiset(content)|
  {
    var both := multiset(query) * multiset(content);
    OverlapIsIntersection(Keys(query), multiset(query), multiset(content), both);
  }

  lemma {:induction false} SubmultisetSize(a: multiset<string>, b: multiset<string>)
    requires a <= b
    ensures |a| <= |b|
    ensures |a| == |b| ==> a == b
  {
    assert b == a + (b - a);
    assert |b| == |a| + |b - a|;
    assert |b - a| == 0 ==> b - a == multiset{};
  }

  /**
   The score lies in [0, 1], and is 1 exactly when the query has tokens and all of them, with their
   multiplicities, occur in the content.
   */
  lemma {:induction false} TokenScoreBounds(query: seq<string>, content: seq<string>)
    ensures 0.0 <= TokenScore(query, content) <= 1.0
    ensures TokenScore(query, content) == 1.0 <==> query != [] && multiset(query) <= multiset(content)
  {
    var q, c := multiset(query), multiset(content);
    OverlapOfTokens(query, content);
    SubmultisetSize(q * c, q);
    assert q <= c <==> q * c == q;
    if query != [] && content == [] {
      assert query[0] in q && query[0] !in c;
    }
    if query != [] && content != [] {
      FractionBounds(|q * c|, |query|);
    }
  }

  /** Multiplied by the size of the query the score is the size of the intersection. */
  ghost predicate IsShare(score: real, query: seq<string>, content: seq<string>) {
    score * (|query| as real) == |multiset(query) * multiset(content)| as real
    && (query == [] ==> score == 0.0)
  }

  /** The score is exactly the size of the intersection over the size of the query. */
  lemma {:induction false} TokenScoreIs(query: seq<string>, content: seq<string>)
    ensures TokenScore(query, content) * (|query| as real) == |multiset(query) * multiset(content)| as real
    ensures IsShare(TokenScore(query, content), query, content)
  {
    var common := |multiset(query) * multiset(content)|;
    TokenScoreFraction(query, content, common);
    NothingInCommon(query, content);
    hide *;
    FractionTimes(TokenScore(query, content), common, |query|);
    ShareIs(TokenScore(query, content), query, content);
  }

  lemma {:induction false} ShareIs(score: real, query: seq<string>, content: seq<string>)
    requires score * (|query| as real) == |multiset(query) * multiset(content)| as real
    requires query == [] ==> score == 0.0
    ensures IsShare(score, query, content)
  {
  }

  lemma {:induction false} TokenScoreFraction(query: seq<string>, content: seq<string>, common: nat)
    requires common == |multiset(query) * multiset(content)|
    ensures query != [] && content != [] ==> TokenScore(query, content) == (common as real) / (|query| as real)
  {
    OverlapOfTokens(query, content);
  }

  lemma {:induction false} NothingInCommon(query: seq<string>, content: seq<string>)
    ensures query == [] || content == [] ==>
              |multiset(query) * multiset(content)| == 0 && TokenScore(query, content) == 0.0
  {
    if query == [] || content == [] {
      assert multiset(query) * multiset(content) == multiset{};
    }
  }

  lemma {:induction false} FractionTimes(score: real, a: nat, d: nat)
    requires (a == 0 && score == 0.0) || (d > 0 && score == (a as real) / (d as real))
    ensures score * (d as real) == a as real
  {
  }

  /** The tokens of a row: those of its symbol name, of its qualified name and of its text. */
  function RowTokens(content: string, symbolName: Option<string>, qualifiedName: Option<string>): seq<string> {
    (if symbolName.Some? then Tokenize(symbolName.value) else [])
    + (if qualifiedName.Some? then Tokenize(qualifiedName.value) else [])
    + Tokenize(content)
  }

  lemma {:induction false} TokensOfPresent(names: seq<Option<string>>, name: Option<string>)
    ensures Tokenize(JoinWith(' ', Present([name] + names)))
         == (if name.Some? then Tokenize(name.value) else []) + Tokenize(JoinWith(' ', Present(names)))
  {
    assert ([name] + names)[1..] == names;
    var rest := Present(names);
    if name.Some? && name.value != "" {
      var all := [name.value] + rest;
      assert Present([name] + names) == all && all[1..] == rest;
      if rest != [] {
        hide Tokenize;
        assert JoinWith(' ', all) == name.value + " " + JoinWith(' ', rest);
        TokensOfJoined(name.value, JoinWith(' ', rest));
      } else {
        assert JoinWith(' ', all) == name.value && JoinWith(' ', rest) == "";
      }
    } else {
      assert Present([name] + names) == rest;
    }
  }

  /** The lexical score counts the tokens of names and text together. */
  lemma {:induction false} LexicalScoreIs(query: string, content: string, symbolName: Option<string>,
                                          qualifiedName: Option<string>)
    ensures IsShare(LexicalScore(query, content, symbolName, qualifiedName), Tokenize(query),
                    RowTokens(content, symbolName, qualifiedName))
  {
    TokensOfRow(content, symbolName, qualifiedName);
    TokenScoreIs(Tokenize(query), RowTokens(content, symbolName, qualifiedName));
    hide Tokenize, Present, JoinWith, TokenScore, RowTokens, IsShare;
  }

  lemma {:induction false} TokensOfRow(content: string, symbolName: Option<string>, qualifiedName: Option<string>)
    ensures Tokenize(JoinWith(' ', Present([symbolName, qualifiedName, Some(content)])))
         == RowTokens(content, symbolName, qualifiedName)
  {
    hide Tokenize, Present, JoinWith;
    var none: seq<Option<string>> := [];
    assert [Some(content)] + none == [Some(content)];
    assert [qualifiedName] + [Some(content)] == [qualifiedName, Some(content)];
    assert [symbolName] + [qualifiedName, Some(content)] == [symbolName, qualifiedName, Some(content)];
    TokensOfPresent(none, Some(content));
    TokensOfPresent([Some(content)], qualifiedName);
    TokensOfPresent([qualifiedName, Some(content)], symbolName);
    NothingIsTokenized();
  }

  lemma {:induction false} NothingIsTokenized()
    ensures Tokenize(JoinWith(' ', Present([]))) == []
  {
  }

  lemma {:induction false} FractionBounds(a: nat, b: nat)
    requires a <= b && b > 0
    ensures 0.0 <= (a as real) / (b as real) <= 1.0
    ensures (a as real) / (b as real) == 1.0 <==> a == b
  {
    QuotientWithin(a as real, b as real);
  }

  /** More content tokens never lower the score. */
  lemma {:induction false} TokenScoreMonotone(query: seq<string>, content: seq<string>, more: seq<string>)
    requires multiset(content) <= multiset(more)
    ensures TokenScore(query, content) <= TokenScore(query, more)
  {
    var q, c, m := multiset(query), multiset(content), multiset(more);
    TokenScoreBounds(query, more);
    if query != [] && content != [] {
      assert content[0] in c && content[0] in m;
      OverlapOfTokens(query, content);
      OverlapOfTokens(query, more);
      SubmultisetSize(q * c, q * m);
      FractionMonotone(|q * c|, |q * m|, |query|);
    }
  }

  lemma {:induction false} FractionMonotone(a: nat, b: nat, d: nat)
    requires a <= b && d > 0
    ensures (a as real) / (d as real) <= (b as real) / (d as real)
  {
  }

  /** Indexing the symbol's names beside its text never lowers a chunk's score. */
  lemma {:induction false} NamesNeverLowerScore(query: string, content: string, symbolName: Option<string>,
                                                qualifiedName: Option<string>)
    ensures LexicalScore(query, content, None, None) <= LexicalScore(query, content, symbolName, qualifiedName)
  {
    var plain, named := Present([None, None, Some(content)]), Present([symbolName, qualifiedName, Some(content)]);
    PresentNames(symbolName, qualifiedName, content);
    TokensGrow(named, plain);
    TokenScoreMonotone(Tokenize(query), Tokenize(JoinWith(' ', plain)), Tokenize(JoinWith(' ', named)));
  }

  lemma {:induction false} PresentNames(a: Option<string>, b: Option<string>, text: string)
    ensures exists names :: Present([a, b, Some(text)]) == names + Present([None, None, Some(text)])
  {
    var last := Present([Some(text)]);
    assert [a, b, Some(text)][1..] == [b, Some(text)] && [b, Some(text)][1..] == [Some(text)];
    assert [None, None, Some(text)][1..] == [None, Some(text)] && [None, Some(text)][1..] == [Some(text)];
    assert Present([None, None, Some(text)]) == last;
    var second := if b.Some? && b.value != "" then [b.value] else [];
    var first := if a.Some? && a.value != "" then [a.value] else [];
    assert Present([b, Some(text)]) == second + last;
    assert Present([a, b, Some(text)]) == first + (second + last) == (first + second) + last;
  }

  lemma {:induction false} TokensGrow(named: seq<string>, plain: seq<string>)
    requires exists names :: named == names + plain
    ensures multiset(Tokenize(JoinWith(' ', plain))) <= multiset(Tokenize(JoinWith(' ', named)))
    decreases |named|
  {
    var names :| named == names + plain;
    if names != [] {
      var rest := named[1..];
      assert rest == names[1..] + plain;
      TokensGrow(rest, plain);
      if rest != [] {
        assert JoinWith(' ', named) == named[0] + " " + JoinWith(' ', rest);
        TokensOfJoined(named[0], JoinWith(' ', rest));
      } else {
        assert plain == [] && JoinWith(' ', plain) == "";
      }
    } else {
      assert named == plain;
    }
  }
}
