/** Comparing a program's output with the expected answer: exact, by tokens, or by tokens with
    numbers allowed to differ a little; letters with or without case. */
module CompareOutput {
  newtype Byte = b: int | 0 <= b < 256
  type Bytes = seq<Byte>

  /** What parsing a token as a number yields. Infinities and NaN parse, but never match. */
  datatype Number = NotANumber | NotFinite | Finite(value: real)

  type Parser = Bytes -> Number

  // ---- the comparison -------------------------------------------------------------------------

  predicate IsSpace(c: Byte) {
    c == 32 || 9 <= c <= 13
  }

  function LowerAscii(c: Byte): Byte {
    if 65 <= c <= 90 then c + 32 else c
  }

  predicate EqualFold(a: Bytes, b: Bytes) {
    |a| == |b| && forall i | 0 <= i < |a| :: LowerAscii(a[i]) == LowerAscii(b[i])
  }

  predicate Equal(caseInsensitive: bool, a: Bytes, b: Bytes) {
    if caseInsensitive then EqualFold(a, b) else a == b
  }

  function WordLength(s: Bytes): (n: nat)
    ensures n <= |s| && (n < |s| ==> IsSpace(s[n])) && forall i | 0 <= i < n :: !IsSpace(s[i])
  {
    if s == [] || IsSpace(s[0]) then 0 else 1 + WordLength(s[1..])
  }

  /** The maximal runs of bytes that are not ASCII white space. */
  function Fields(s: Bytes): seq<Bytes>
    decreases |s|
  {
    if s == [] then []
    else if IsSpace(s[0]) then Fields(s[1..])
    else [s[..WordLength(s)]] + Fields(s[WordLength(s)..])
  }

  predicate CompareTokens(out: Bytes, answer: Bytes, same: (Bytes, Bytes) -> bool) {
    var got, want := Fields(out), Fields(answer);
    |got| == |want| && forall i | 0 <= i < |want| :: same(got[i], want[i])
  }

  function Abs(x: real): real {
    if x < 0.0 then -x else x
  }

  predicate FloatsClose(parse: Parser, got: Bytes, want: Bytes, tolerance: real) {
    match (parse(got), parse(want))
    case (Finite(g), Finite(w)) => Near(g, w, tolerance)
    case _ => false
  }

  predicate Near(got: real, want: real, tolerance: real) {
    var diff := Abs(got - want);
    diff <= tolerance || diff <= tolerance * Abs(want)
  }

  /** Any mode other than "exact" and "float" compares by tokens. */
  predicate OutputMatches(parse: Parser, out: Bytes, answer: Bytes, mode: string, tolerance: real,
                          caseInsensitive: bool) {
    if mode == "exact" then Equal(caseInsensitive, out, answer)
    else if mode == "float" then
      CompareTokens(out, answer, (a, b) => Equal(caseInsensitive, a, b) || FloatsClose(parse, a, b, tolerance))
    else CompareTokens(out, answer, (a, b) => Equal(caseInsensitive, a, b))
  }

  // ---- tokens and the space between them ------------------------------------------------------

  /** A token and the white space after it. */
  datatype Word = Word(token: Bytes, gap: Bytes)

  predicate IsToken(t: Bytes) {
    t != [] && forall i | 0 <= i < |t| :: !IsSpace(t[i])
  }

  predicate IsGap(g: Bytes) {
    forall i | 0 <= i < |g| :: IsSpace(g[i])
  }

  /** Tokens with space between any two; after the last one there need not be any. */
  predicate WellSpaced(ws: seq<Word>) {
    ws == [] || (IsToken(ws[0].token) && IsGap(ws[0].gap) && (|ws| > 1 ==> ws[0].gap != []) && WellSpaced(ws[1..]))
  }

  function Text(ws: seq<Word>): Bytes {
    if ws == [] then [] else ws[0].token + (ws[0].gap + Text(ws[1..]))
  }

  function Tokens(ws: seq<Word>): seq<Bytes> {
    if ws == [] then [] else [ws[0].token] + Tokens(ws[1..])
  }

  lemma {:induction false} FieldsSkipGap(gap: Bytes, s: Bytes)
    requires IsGap(gap)
    ensures Fields(gap + s) == Fields(s)
  {
    if gap == [] {
      assert gap + s == s;
    } else {
      FieldsSkipGap(gap[1..], s);
      assert (gap + s)[1..] == gap[1..] + s;
    }
  }

  lemma {:induction false} FieldsTakeToken(t: Bytes, s: Bytes)
    requires IsToken(t) && (s != [] ==> IsSpace(s[0]))
    ensures Fields(t + s) == [t] + Fields(s)
  {
    var n := WordLength(t + s);
    assert forall i | 0 <= i < |t| :: (t + s)[i] == t[i];
    assert s != [] ==> (t + s)[|t|] == s[0];
    assert n == |t|;
    assert (t + s)[..n] == t && (t + s)[n..] == s;
  }

  /** However tokens are spaced out, splitting gives them back. */
  lemma {:induction false} FieldsOfText(lead: Bytes, ws: seq<Word>)
    requires IsGap(lead) && WellSpaced(ws)
    ensures Fields(lead + Text(ws)) == Tokens(ws)
    decreases |ws|
  {
    FieldsSkipGap(lead, Text(ws));
    if ws != [] {
      var rest := ws[0].gap + Text(ws[1..]);
      FieldsOfText(ws[0].gap, ws[1..]);
      FieldsTakeToken(ws[0].token, rest);
    }
  }

  /** Every text is its tokens, spaced out somehow. */
  lemma {:induction false} EveryTextIsSpacedTokens(s: Bytes) returns (lead: Bytes, ws: seq<Word>)
    ensures IsGap(lead) && WellSpaced(ws) && s == lead + Text(ws) && Fields(s) == Tokens(ws)
    decreases |s|
  {
    if s == [] {
      lead, ws := [], [];
    } else if IsSpace(s[0]) {
      lead, ws := EveryTextIsSpacedTokens(s[1..]);
      lead := [s[0]] + lead;
    } else {
      var n := WordLength(s);
      var gap, rest := EveryTextIsSpacedTokens(s[n..]);
      lead, ws := [], [Word(s[..n], gap)] + rest;
      if rest != [] {
        assert |s[n..]| > 0 && IsSpace(s[n]) && s[n] == (gap + Text(rest))[0];
        assert Text(rest)[0] == rest[0].token[0];
      }
      assert s == s[..n] + s[n..];
    }
  }

  // ---- canonical forms ------------------------------------------------------------------------

  function SingleSpaced(ts: seq<Bytes>): seq<Word> {
    if ts == [] then [] else [Word(ts[0], if |ts| == 1 then [] else [32])] + SingleSpaced(ts[1..])
  }

  /** The tokens joined by one space. */
  function Joined(ts: seq<Bytes>): Bytes {
    Text(SingleSpaced(ts))
  }

  function Fold(caseInsensitive: bool, s: Bytes): (r: Bytes)
    ensures |r| == |s| && forall i | 0 <= i < |s| :: r[i] == if caseInsensitive then LowerAscii(s[i]) else s[i]
  {
    if caseInsensitive then seq(|s|, i requires 0 <= i < |s| => LowerAscii(s[i])) else s
  }

  function FoldEach(caseInsensitive: bool, ts: seq<Bytes>): (r: seq<Bytes>)
    ensures |r| == |ts| && forall i | 0 <= i < |ts| :: r[i] == Fold(caseInsensitive, ts[i])
  {
    seq(|ts|, i requires 0 <= i < |ts| => Fold(caseInsensitive, ts[i]))
  }

  function Canonical(caseInsensitive: bool, s: Bytes): Bytes {
    Fold(caseInsensitive, Joined(Fields(s)))
  }

  predicate AreTokens(ts: seq<Bytes>) {
    forall i | 0 <= i < |ts| :: IsToken(ts[i])
  }

  lemma {:induction false} FieldsAreTokens(s: Bytes)
    ensures AreTokens(Fields(s))
    decreases |s|
  {
    if s != [] {
      FieldsAreTokens(if IsSpace(s[0]) then s[1..] else s[WordLength(s)..]);
    }
  }

  lemma {:induction false} SingleSpacedMeaning(ts: seq<Bytes>)
    requires AreTokens(ts)
    ensures WellSpaced(SingleSpaced(ts)) && Tokens(SingleSpaced(ts)) == ts
  {
    if ts != [] {
      SingleSpacedMeaning(ts[1..]);
    }
  }

  /** Splitting what joining made gives the same tokens. */
  lemma FieldsOfJoined(ts: seq<Bytes>)
    requires AreTokens(ts)
    ensures Fields(Joined(ts)) == ts
  {
    SingleSpacedMeaning(ts);
    FieldsOfText([], SingleSpaced(ts));
    assert [] + Joined(ts) == Joined(ts);
  }

  lemma {:induction false} WordLengthFold(ci: bool, s: Bytes)
    ensures WordLength(Fold(ci, s)) == WordLength(s)
  {
    if s != [] && !IsSpace(s[0]) {
      WordLengthFold(ci, s[1..]);
      assert Fold(ci, s)[1..] == Fold(ci, s[1..]);
    }
  }

  /** Lowering letters moves no token boundary. */
  lemma {:induction false} FieldsFold(ci: bool, s: Bytes)
    ensures Fields(Fold(ci, s)) == FoldEach(ci, Fields(s))
    decreases |s|
  {
    if s != [] && IsSpace(s[0]) {
      FieldsFold(ci, s[1..]);
      assert Fold(ci, s)[1..] == Fold(ci, s[1..]);
    } else if s != [] {
      var n := WordLength(s);
      WordLengthFold(ci, s);
      FieldsFold(ci, s[n..]);
      assert Fold(ci, s)[n..] == Fold(ci, s[n..]);
      assert Fold(ci, s)[..n] == Fold(ci, s[..n]);
      assert FoldEach(ci, [s[..n]] + Fields(s[n..])) == [Fold(ci, s[..n])] + FoldEach(ci, Fields(s[n..]));
    }
  }

  lemma {:induction false} JoinedFold(ci: bool, ts: seq<Bytes>)
    ensures Fold(ci, Joined(ts)) == Joined(FoldEach(ci, ts))
  {
    if ts != [] {
      JoinedFold(ci, ts[1..]);
      assert FoldEach(ci, ts)[1..] == FoldEach(ci, ts[1..]);
    }
  }

  lemma EqualIsEqualFolds(ci: bool, a: Bytes, b: Bytes)
    ensures Equal(ci, a, b) <==> Fold(ci, a) == Fold(ci, b)
  {
    if Fold(ci, a) == Fold(ci, b) {
      forall i | 0 <= i < |a| ensures ci ==> LowerAscii(a[i]) == LowerAscii(b[i]) {
        assert Fold(ci, a)[i] == Fold(ci, b)[i];
      }
    }
  }

  predicate IsTokenMode(mode: string) {
    mode != "exact" && mode != "float"
  }

  /** Token comparison is equality of canonical forms. */
  lemma TokenModeComparesCanonicalForms(parse: Parser, out: Bytes, answer: Bytes, mode: string, tolerance: real,
                                        ci: bool)
    requires IsTokenMode(mode)
    ensures OutputMatches(parse, out, answer, mode, tolerance, ci) <==> Canonical(ci, out) == Canonical(ci, answer)
  {
    var got, want := Fields(out), Fields(answer);
    JoinedFold(ci, got);
    JoinedFold(ci, want);
    forall a, b ensures Equal(ci, a, b) <==> Fold(ci, a) == Fold(ci, b) {
      EqualIsEqualFolds(ci, a, b);
    }
    CanonicalKeepsTokens(ci, out);
    CanonicalKeepsTokens(ci, answer);
    if Canonical(ci, out) == Canonical(ci, answer) {
      assert FoldEach(ci, got) == FoldEach(ci, want);
      forall i | 0 <= i < |want| ensures Equal(ci, got[i], want[i]) {
        assert FoldEach(ci, got)[i] == FoldEach(ci, want)[i];
      }
    }
    if CompareTokens(out, answer, (a, b) => Equal(ci, a, b)) {
      assert FoldEach(ci, got) == FoldEach(ci, want);
    }
  }

  /** Splitting the canonical form gives back the tokens, lowered as the comparison lowers them, and
      the canonical form is its own canonical form. */
  lemma CanonicalKeepsTokens(ci: bool, s: Bytes)
    ensures Fields(Canonical(ci, s)) == FoldEach(ci, Fields(s))
    ensures Canonical(ci, Canonical(ci, s)) == Canonical(ci, s)
  {
    FieldsAreTokens(s);
    FieldsOfJoined(Fields(s));
    FieldsFold(ci, Joined(Fields(s)));
    JoinedFold(ci, Fields(s));
    var folded := FoldEach(ci, Fields(s));
    assert Canonical(ci, s) == Joined(folded);
    JoinedFold(ci, folded);
    assert FoldEach(ci, folded) == folded by {
      forall i | 0 <= i < |folded| ensures FoldEach(ci, folded)[i] == folded[i] {
        assert Fold(ci, folded[i]) == folded[i];
      }
    }
  }

  /** Token comparison is an equivalence relation. */
  lemma TokenModeIsAnEquivalence(parse: Parser, a: Bytes, b: Bytes, c: Bytes, mode: string, tolerance: real, ci: bool)
    requires IsTokenMode(mode)
    ensures OutputMatches(parse, a, a, mode, tolerance, ci)
    ensures OutputMatches(parse, a, b, mode, tolerance, ci) ==> OutputMatches(parse, b, a, mode, tolerance, ci)
    ensures OutputMatches(parse, a, b, mode, tolerance, ci) && OutputMatches(parse, b, c, mode, tolerance, ci) ==>
              OutputMatches(parse, a, c, mode, tolerance, ci)
  {
    TokenModeComparesCanonicalForms(parse, a, a, mode, tolerance, ci);
    TokenModeComparesCanonicalForms(parse, a, b, mode, tolerance, ci);
    TokenModeComparesCanonicalForms(parse, b, a, mode, tolerance, ci);
    TokenModeComparesCanonicalForms(parse, b, c, mode, tolerance, ci);
    TokenModeComparesCanonicalForms(parse, a, c, mode, tolerance, ci);
  }

  /** Spacing the same tokens out differently, in the output or the answer, changes no verdict by
      tokens or by numbers. */
  lemma RespacingChangesNothing(parse: Parser, lead: Bytes, ws: seq<Word>, lead': Bytes, ws': seq<Word>, other: Bytes,
                                mode: string, tolerance: real, ci: bool)
    requires IsGap(lead) && WellSpaced(ws) && IsGap(lead') && WellSpaced(ws') && Tokens(ws) == Tokens(ws')
             && mode != "exact"
    ensures OutputMatches(parse, lead + Text(ws), other, mode, tolerance, ci)
       <==> OutputMatches(parse, lead' + Text(ws'), other, mode, tolerance, ci)
    ensures OutputMatches(parse, other, lead + Text(ws), mode, tolerance, ci)
       <==> OutputMatches(parse, other, lead' + Text(ws'), mode, tolerance, ci)
  {
    FieldsOfText(lead, ws);
    FieldsOfText(lead', ws');
  }

  /** Accepted exactly, accepted by tokens; accepted by tokens, accepted by numbers. */
  lemma ExactThenTokensThenNumbers(parse: Parser, out: Bytes, answer: Bytes, mode: string, tolerance: real, ci: bool)
    requires IsTokenMode(mode)
    ensures OutputMatches(parse, out, answer, "exact", tolerance, ci) ==>
              OutputMatches(parse, out, answer, mode, tolerance, ci)
    ensures OutputMatches(parse, out, answer, mode, tolerance, ci) ==>
              OutputMatches(parse, out, answer, "float", tolerance, ci)
  {
    if OutputMatches(parse, out, answer, "exact", tolerance, ci) {
      EqualIsEqualFolds(ci, out, answer);
      FieldsFold(ci, out);
      FieldsFold(ci, answer);
      forall i | 0 <= i < |Fields(out)| ensures Equal(ci, Fields(out)[i], Fields(answer)[i]) {
        assert FoldEach(ci, Fields(out))[i] == FoldEach(ci, Fields(answer))[i];
        EqualIsEqualFolds(ci, Fields(out)[i], Fields(answer)[i]);
      }
    }
  }

  lemma ProductGrows(t: real, a: real, b: real)
    requires 0.0 <= t && a <= b
    ensures t * a <= t * b
  {
    assert t * (b - a) >= 0.0;
  }

  lemma NearGrows(got: real, want: real, small: real, large: real)
    requires small <= large && Near(got, want, small)
    ensures Near(got, want, large)
  {
    ProductGrows(Abs(want), small, large);
  }

  /** What is accepted within a tolerance is accepted within a larger one. */
  lemma FloatModeIsMonotone(parse: Parser, out: Bytes, answer: Bytes, small: real, large: real, ci: bool)
    requires small <= large && OutputMatches(parse, out, answer, "float", small, ci)
    ensures OutputMatches(parse, out, answer, "float", large, ci)
  {
    forall a, b | FloatsClose(parse, a, b, small) ensures FloatsClose(parse, a, b, large) {
      NearGrows(parse(a).value, parse(b).value, small, large);
    }
  }

  /** With a sensible tolerance, numbers match when they differ by at most the tolerance, scaled up
      by the expected value where that is larger than one. */
  lemma NearMeaning(got: real, want: real, tolerance: real)
    requires tolerance >= 0.0
    ensures Near(got, want, tolerance) <==> Abs(got - want) <= tolerance * (if Abs(want) > 1.0 then Abs(want) else 1.0)
  {
    if Abs(want) > 1.0 {
      ProductGrows(tolerance, 1.0, Abs(want));
    } else {
      ProductGrows(tolerance, Abs(want), 1.0);
    }
  }

  /** What a tolerance is scaled by. */
  function Scale(want: real): real {
    if Abs(want) > 1.0 then Abs(want) else 1.0
  }

  /** Two numbers match one way round only exactly when their difference lies between the tolerance
      scaled by the smaller of them and the tolerance scaled by the larger. */
  lemma OneWayMatches(got: real, want: real, tolerance: real)
    requires tolerance >= 0.0
    ensures Near(got, want, tolerance) && !Near(want, got, tolerance) <==>
              tolerance * Scale(got) < Abs(got - want) <= tolerance * Scale(want)
  {
    NearMeaning(got, want, tolerance);
    NearMeaning(want, got, tolerance);
  }

  /** Comparing by numbers is not symmetric, since the tolerance is relative to the expected value:
      output 1 matches the answer 2 to within a half, output 2 does not match the answer 1. */
  lemma FloatModeIsNotSymmetric(parse: Parser)
    requires parse([49]) == Finite(1.0) && parse([50]) == Finite(2.0)
    ensures OutputMatches(parse, [49], [50], "float", 0.5, false)
    ensures !OutputMatches(parse, [50], [49], "float", 0.5, false)
  {
    var one, two: Bytes := [49], [50];
    FieldsTakeToken(one, []);
    FieldsTakeToken(two, []);
    assert one + [] == one && two + [] == two;
    var got, want := Fields(two), Fields(one);
    assert got[0] == two && want[0] == one;
    assert !(Equal(false, got[0], want[0]) || FloatsClose(parse, got[0], want[0], 0.5));
  }

  // ---- bytes ----------------------------------------------------------------------------------

  /** Between two letters, exactly six bytes separate: tab, line feed, vertical tab, form feed,
      carriage return and space. */
  lemma SixBytesSeparate(c: Byte)
    ensures var x: Byte, y: Byte := 120, 121;
            Fields([x, c, y]) == if c in {9, 10, 11, 12, 13, 32} then [[x], [y]] else [[x, c, y]]
  {
    var x: Byte, y: Byte := 120, 121;
    FieldsTakeToken([y], []);
    assert [y] + [] == [y];
    if c in {9, 10, 11, 12, 13, 32} {
      FieldsSkipGap([c], [y]);
      FieldsTakeToken([x], [c, y]);
      assert [c] + [y] == [c, y] && [x] + [c, y] == [x, c, y];
    } else {
      FieldsTakeToken([x, c, y], []);
      assert [x, c, y] + [] == [x, c, y];
    }
  }

  /** The same byte, or the two cases of one letter A to Z. */
  predicate SameLetter(c: Byte, d: Byte) {
    c == d || (65 <= c <= 90 && d == c + 32) || (65 <= d <= 90 && c == d + 32)
  }

  lemma EqualMeaning(ci: bool, a: Bytes, b: Bytes)
    ensures Equal(ci, a, b) <==>
              |a| == |b| && forall i | 0 <= i < |a| :: a[i] == b[i] || (ci && SameLetter(a[i], b[i]))
  {
    forall c: Byte, d: Byte ensures LowerAscii(c) == LowerAscii(d) <==> SameLetter(c, d) {
    }
  }

  /** Comparing by tokens, and by numbers, in full: as many tokens, and each the same up to the case of
      letters where that does not matter; by numbers also where both read as finite numbers no
      further apart than the tolerance, scaled up by the expected one. */
  lemma FloatModeMeaning(parse: Parser, out: Bytes, answer: Bytes, tolerance: real, ci: bool)
    requires tolerance >= 0.0
    ensures var got, want := Fields(out), Fields(answer);
            OutputMatches(parse, out, answer, "float", tolerance, ci) <==>
              |got| == |want| &&
              forall i | 0 <= i < |want| ::
                Equal(ci, got[i], want[i]) || NumbersMatch(parse(got[i]), parse(want[i]), tolerance)
  {
    forall a, b ensures FloatsClose(parse, a, b, tolerance) <==> NumbersMatch(parse(a), parse(b), tolerance) {
      if parse(a).Finite? && parse(b).Finite? {
        NearMeaning(parse(a).value, parse(b).value, tolerance);
      }
    }
  }

  predicate NumbersMatch(got: Number, want: Number, tolerance: real) {
    got.Finite? && want.Finite? && Abs(got.value - want.value) <= tolerance * Scale(want.value)
  }

  // ---- exact comparison -----------------------------------------------------------------------

  /** A text is spaced out in one way only. */
  lemma {:induction false} SpacingIsUnique(lead: Bytes, ws: seq<Word>, lead': Bytes, ws': seq<Word>)
    requires IsGap(lead) && WellSpaced(ws) && IsGap(lead') && WellSpaced(ws')
    requires lead + Text(ws) == lead' + Text(ws')
    ensures lead == lead' && ws == ws'
    decreases |ws|
  {
    SameLead(lead, ws, lead', ws');
    assert Text(ws) == (lead + Text(ws))[|lead|..] == Text(ws');
    if ws != [] && ws' != [] {
      var rest, rest' := ws[0].gap + Text(ws[1..]), ws'[0].gap + Text(ws'[1..]);
      SameToken(ws[0].token, rest, ws'[0].token, rest');
      assert rest == Text(ws)[|ws[0].token|..] == rest';
      SpacingIsUnique(ws[0].gap, ws[1..], ws'[0].gap, ws'[1..]);
      assert ws == [ws[0]] + ws[1..] && ws' == [ws'[0]] + ws'[1..];
    }
  }

  lemma TextStartsWithToken(ws: seq<Word>)
    requires WellSpaced(ws)
    ensures Text(ws) == [] <==> ws == []
    ensures ws != [] ==> !IsSpace(Text(ws)[0])
  {
  }

  lemma SameLead(lead: Bytes, ws: seq<Word>, lead': Bytes, ws': seq<Word>)
    requires IsGap(lead) && WellSpaced(ws) && IsGap(lead') && WellSpaced(ws')
    requires lead + Text(ws) == lead' + Text(ws')
    ensures lead == lead'
  {
    var s := lead + Text(ws);
    TextStartsWithToken(ws);
    TextStartsWithToken(ws');
    assert forall i | 0 <= i < |lead| :: s[i] == lead[i];
    assert forall i | 0 <= i < |lead'| :: s[i] == lead'[i];
    assert |lead| < |s| ==> s[|lead|] == Text(ws)[0];
    assert |lead'| < |s| ==> s[|lead'|] == Text(ws')[0];
    assert |lead| == |lead'|;
    assert lead == s[..|lead|] == lead';
  }

  lemma SameToken(t: Bytes, rest: Bytes, t': Bytes, rest': Bytes)
    requires IsToken(t) && IsToken(t') && (rest != [] ==> IsSpace(rest[0])) && (rest' != [] ==> IsSpace(rest'[0]))
    requires t + rest == t' + rest'
    ensures t == t'
  {
    FieldsTakeToken(t, rest);
    FieldsTakeToken(t', rest');
    assert t == ([t] + Fields(rest))[0] == ([t'] + Fields(rest'))[0];
  }

  function FoldWords(ci: bool, ws: seq<Word>): seq<Word> {
    if ws == [] then [] else [Word(Fold(ci, ws[0].token), ws[0].gap)] + FoldWords(ci, ws[1..])
  }

  lemma FoldConcat(ci: bool, a: Bytes, b: Bytes)
    ensures Fold(ci, a + b) == Fold(ci, a) + Fold(ci, b)
  {
  }

  lemma FoldGap(ci: bool, gap: Bytes)
    requires IsGap(gap)
    ensures Fold(ci, gap) == gap
  {
  }

  lemma {:induction false} FoldText(ci: bool, ws: seq<Word>)
    requires WellSpaced(ws)
    ensures WellSpaced(FoldWords(ci, ws)) && Fold(ci, Text(ws)) == Text(FoldWords(ci, ws))
  {
    if ws != [] {
      FoldText(ci, ws[1..]);
      FoldGap(ci, ws[0].gap);
      FoldConcat(ci, ws[0].token, ws[0].gap + Text(ws[1..]));
      FoldConcat(ci, ws[0].gap, Text(ws[1..]));
      assert FoldWords(ci, ws)[1..] == FoldWords(ci, ws[1..]);
    }
  }

  lemma {:induction false} FoldWordsAt(ci: bool, ws: seq<Word>)
    ensures |FoldWords(ci, ws)| == |ws|
    ensures forall i | 0 <= i < |ws| :: FoldWords(ci, ws)[i] == Word(Fold(ci, ws[i].token), ws[i].gap)
  {
    if ws != [] {
      FoldWordsAt(ci, ws[1..]);
    }
  }

  lemma SameFoldedWords(ci: bool, ws: seq<Word>, ws': seq<Word>)
    ensures FoldWords(ci, ws) == FoldWords(ci, ws') <==> SameWords(ci, ws, ws')
  {
    FoldWordsAt(ci, ws);
    FoldWordsAt(ci, ws');
    forall i | 0 <= i < |ws| && i < |ws'|
      ensures FoldWords(ci, ws)[i] == FoldWords(ci, ws')[i] <==>
                ws[i].gap == ws'[i].gap && Equal(ci, ws[i].token, ws'[i].token)
    {
      EqualIsEqualFolds(ci, ws[i].token, ws'[i].token);
    }
  }

  lemma FoldSpaced(ci: bool, lead: Bytes, ws: seq<Word>)
    requires IsGap(lead) && WellSpaced(ws)
    ensures WellSpaced(FoldWords(ci, ws)) && Fold(ci, lead + Text(ws)) == lead + Text(FoldWords(ci, ws))
  {
    FoldConcat(ci, lead, Text(ws));
    FoldGap(ci, lead);
    FoldText(ci, ws);
  }

  lemma EqualSpacedTexts(ci: bool, lead: Bytes, ws: seq<Word>, lead': Bytes, ws': seq<Word>)
    requires IsGap(lead) && WellSpaced(ws) && IsGap(lead') && WellSpaced(ws')
    ensures Equal(ci, lead + Text(ws), lead' + Text(ws')) <==> lead == lead' && FoldWords(ci, ws) == FoldWords(ci, ws')
  {
    EqualIsEqualFolds(ci, lead + Text(ws), lead' + Text(ws'));
    FoldSpaced(ci, lead, ws);
    FoldSpaced(ci, lead', ws');
    if lead + Text(FoldWords(ci, ws)) == lead' + Text(FoldWords(ci, ws')) {
      SpacingIsUnique(lead, FoldWords(ci, ws), lead', FoldWords(ci, ws'));
    }
  }

  /** Exact comparison minds every space: it accepts exactly when the texts are spaced out in the same
      way and their tokens are the same, up to the case of letters where that does not matter. */
  lemma ExactModeMeaning(parse: Parser, lead: Bytes, ws: seq<Word>, lead': Bytes, ws': seq<Word>,
                         tolerance: real, ci: bool)
    requires IsGap(lead) && WellSpaced(ws) && IsGap(lead') && WellSpaced(ws')
    ensures OutputMatches(parse, lead + Text(ws), lead' + Text(ws'), "exact", tolerance, ci) <==>
              lead == lead' && SameWords(ci, ws, ws')
  {
    EqualSpacedTexts(ci, lead, ws, lead', ws');
    SameFoldedWords(ci, ws, ws');
  }

  /** The same gaps, and tokens that are equal as the comparison takes letters. */
  predicate SameWords(ci: bool, ws: seq<Word>, ws': seq<Word>) {
    |ws| == |ws'| && forall i | 0 <= i < |ws| :: ws[i].gap == ws'[i].gap && Equal(ci, ws[i].token, ws'[i].token)
  }
}
