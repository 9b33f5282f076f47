/**
 * How the page turns the generated text into the summary cards it shows:
 * `generatedBios.substring(generatedBios.indexOf("1") + 3).split(/2\.|3\./)`,
 * each piece trimmed before it is shown or copied, and nothing shown while
 * the text is empty.
 */
module SummarySplit {
  import JsText

  /** The regular expression `/2\.|3\./` matches at index `i` of `s`. */
  predicate IsDelimiterAt(s: string, i: int) {
    0 <= i && i + 1 < |s| && (s[i] == '2' || s[i] == '3') && s[i + 1] == '.'
  }

  /** The two strings the regular expression can match. */
  predicate IsDelimiter(d: string) {
    d == "2." || d == "3."
  }

  /** Some match of `/2\.|3\./` lies inside `s`. */
  predicate HasDelimiter(s: string) {
    exists i | 0 <= i < |s| :: IsDelimiterAt(s, i)
  }

  /**
   * `s.split(/2\.|3\./)`: scanning from the left, every match of the
   * expression ends the current piece; the text after the last match is the
   * last piece, so there is always at least one piece.
   */
  function Split(s: string): (parts: seq<string>)
    ensures |parts| >= 1
    ensures parts[0] <= s
    decreases |s|
  {
    if |s| < 2 then [s]
    else if IsDelimiterAt(s, 0) then [""] + Split(s[2..])
    else
      var rest := Split(s[1..]);
      [[s[0]] + rest[0]] + rest[1..]
  }

  /** The matches `Split` cuts at, in order from the left. */
  function Delimiters(s: string): (ds: seq<string>)
    ensures forall k :: 0 <= k < |ds| ==> IsDelimiter(ds[k])
    decreases |s|
  {
    if |s| < 2 then []
    else if IsDelimiterAt(s, 0) then [s[..2]] + Delimiters(s[2..])
    else Delimiters(s[1..])
  }

  /** Pieces put back together with the delimiters between them. */
  function Join(parts: seq<string>, delims: seq<string>): string
    requires |parts| == |delims| + 1
    decreases |delims|
  {
    if delims == [] then parts[0]
    else parts[0] + delims[0] + Join(parts[1..], delims[1..])
  }

  lemma JoinConsFirst(c: char, p: string, parts: seq<string>, delims: seq<string>)
    requires |parts| == |delims|
    ensures Join([[c] + p] + parts, delims) == [c] + Join([p] + parts, delims)
  {
    var withC, without := [[c] + p] + parts, [p] + parts;
    if delims == [] {
      assert Join(withC, delims) == withC[0] == [c] + p;
      assert Join(without, delims) == without[0] == p;
    } else {
      assert withC[1..] == parts;
      assert without[1..] == parts;
    }
  }

  /** There is one more piece than there are matches. */
  lemma {:induction false} SplitCount(s: string)
    ensures |Split(s)| == |Delimiters(s)| + 1
    decreases |s|
  {
    if |s| >= 2 {
      if IsDelimiterAt(s, 0) {
        SplitCount(s[2..]);
      } else {
        SplitCount(s[1..]);
      }
    }
  }

  /** Rejoining the pieces with the matched delimiters gives the text back. */
  lemma {:induction false} SplitJoin(s: string)
    ensures |Split(s)| == |Delimiters(s)| + 1
    ensures Join(Split(s), Delimiters(s)) == s
    decreases |s|
  {
    SplitCount(s);
    if |s| >= 2 {
      if IsDelimiterAt(s, 0) {
        SplitJoin(s[2..]);
        assert ([""] + Split(s[2..]))[1..] == Split(s[2..]);
        assert s == s[..2] + s[2..];
      } else {
        var rest := Split(s[1..]);
        SplitJoin(s[1..]);
        SplitCount(s[1..]);
        JoinConsFirst(s[0], rest[0], rest[1..], Delimiters(s[1..]));
        assert [rest[0]] + rest[1..] == rest;
        assert s == [s[0]] + s[1..];
      }
    }
  }

  /** A match inside the tail of a text is a match inside the text. */
  lemma TailHasNoDelimiter(c: char, p: string)
    requires !HasDelimiter([c] + p)
    ensures !HasDelimiter(p)
  {
    forall i | 0 <= i < |p| ensures !IsDelimiterAt(p, i) {
      assert ([c] + p)[i + 1] == p[i];
      assert i + 2 < |p| + 1 ==> ([c] + p)[i + 2] == p[i + 1];
      assert !IsDelimiterAt([c] + p, i + 1);
    }
  }

  /** No piece contains a match: every occurrence of `2.` or `3.` is a cut. */
  lemma {:induction false} PartsHaveNoDelimiter(s: string)
    ensures forall k :: 0 <= k < |Split(s)| ==> !HasDelimiter(Split(s)[k])
    decreases |s|
  {
    if |s| >= 2 {
      if IsDelimiterAt(s, 0) {
        PartsHaveNoDelimiter(s[2..]);
        assert !HasDelimiter("");
      } else {
        var rest := Split(s[1..]);
        PartsHaveNoDelimiter(s[1..]);
        var first := [s[0]] + rest[0];
        if HasDelimiter(first) {
          var i :| IsDelimiterAt(first, i);
          assert IsDelimiterAt(first, i);
          assert 0 <= i;
          assert i + 1 < |first|;
          assert |first| == 1 + |rest[0]|;
          if i == 0 {
            assert rest[0][0] == s[1..][0] == s[1];
            assert IsDelimiterAt(s, 0);
          } else {
            assert first[i] == rest[0][i - 1] && first[i + 1] == rest[0][i];
            assert IsDelimiterAt(rest[0], i - 1);
          }
        }
      }
    }
  }

  /**
   * Split is the only way to cut a text into pieces free of matches,
   * separated by `2.` or `3.` delimiters: any such decomposition is `Split`'s.
   */
  lemma {:induction false} SplitUnique(s: string, parts: seq<string>, delims: seq<string>)
    requires |parts| == |delims| + 1
    requires forall k :: 0 <= k < |delims| ==> IsDelimiter(delims[k])
    requires forall k :: 0 <= k < |parts| ==> !HasDelimiter(parts[k])
    requires Join(parts, delims) == s
    ensures parts == Split(s) && delims == Delimiters(s)
    decreases |s|
  {
    if delims == [] {
      NoDelimiterIsOnePiece(s);
    } else {
      var tail := Join(parts[1..], delims[1..]);
      assert s == parts[0] + delims[0] + tail;
      if parts[0] == "" {
        assert s[..2] == delims[0] && s[2..] == tail;
        assert IsDelimiterAt(s, 0);
        SplitUnique(s[2..], parts[1..], delims[1..]);
        assert parts == [""] + parts[1..];
      } else {
        var p := parts[0];
        if IsDelimiterAt(s, 0) {
          if |p| >= 2 {
            assert IsDelimiterAt(p, 0);
          }
        } else {
          var rest := [p[1..]] + parts[1..];
          assert [p[0]] + p[1..] == p;
          TailHasNoDelimiter(p[0], p[1..]);
          JoinConsFirst(p[0], p[1..], parts[1..], delims);
          assert [p[0]] + p[1..] == p;
          assert [[p[0]] + p[1..]] + parts[1..] == parts;
          assert s[1..] == Join(rest, delims);
          forall k | 0 <= k < |rest| ensures !HasDelimiter(rest[k]) {
            if k > 0 { assert rest[k] == parts[k]; }
          }
          SplitUnique(s[1..], rest, delims);
        }
      }
    }
  }

  /** A text without a match of `2.` or `3.` (say one with only `4.`) is one piece. */
  lemma {:induction false} NoDelimiterIsOnePiece(s: string)
    requires !HasDelimiter(s)
    ensures Split(s) == [s] && Delimiters(s) == []
    decreases |s|
  {
    if |s| >= 2 {
      assert !IsDelimiterAt(s, 0);
      assert [s[0]] + s[1..] == s;
      TailHasNoDelimiter(s[0], s[1..]);
      NoDelimiterIsOnePiece(s[1..]);
    }
  }

  /**
   * The text the page splits: `buffer.substring(buffer.indexOf("1") + 3)`,
   * meant to skip past the marker "1. ".
   */
  function Remainder(buffer: string): string {
    JsText.Substring(buffer, JsText.IndexOf(buffer, '1') + 3)
  }

  /** With a first `1` at index `k`, the text from `k + 3` on is kept, clamped to the end. */
  lemma RemainderAfterFirstOne(buffer: string, k: nat)
    requires k < |buffer| && buffer[k] == '1' && '1' !in buffer[..k]
    ensures Remainder(buffer) == if k + 3 <= |buffer| then buffer[k + 3..] else ""
  {
  }

  /** Without any `1`, `indexOf` gives -1, so exactly the first two characters are lost. */
  lemma RemainderWithoutOne(buffer: string)
    requires '1' !in buffer
    ensures Remainder(buffer) == if 2 <= |buffer| then buffer[2..] else ""
  {
  }

  /** `parts.map(f)`: `f` applied to each piece, in order. */
  function MapParts(f: string -> string, parts: seq<string>): (vs: seq<string>)
    ensures |vs| == |parts|
    ensures forall k :: 0 <= k < |parts| ==> vs[k] == f(parts[k])
  {
    if parts == [] then [] else [f(parts[0])] + MapParts(f, parts[1..])
  }

  /** Each piece with the white space at its ends removed, in order. */
  function TrimAll(parts: seq<string>): (vs: seq<string>)
    ensures |vs| == |parts|
    ensures forall k :: 0 <= k < |parts| ==> vs[k] == JsText.Trim(parts[k])
  {
    MapParts(JsText.Trim, parts)
  }

  /** The variants as each card shows and copies them: every piece, trimmed. */
  function Variants(buffer: string): seq<string> {
    TrimAll(Split(Remainder(buffer)))
  }

  /** What the results grid renders: nothing while the buffer is empty, the variants otherwise. */
  function Shown(buffer: string): seq<string> {
    if buffer == "" then [] else Variants(buffer)
  }

  /**
   * A non-empty buffer shows one card per match of `2.` or `3.` in the
   * remainder, plus one; each card is a trimmed piece of the remainder,
   * and no card text has white space at either end.
   */
  lemma {:induction false} ShownCards(buffer: string)
    requires buffer != ""
    ensures |Shown(buffer)| == |Delimiters(Remainder(buffer))| + 1
    ensures forall k :: 0 <= k < |Shown(buffer)| ==> JsText.IsTrimmed(Shown(buffer)[k])
  {
    var parts := Split(Remainder(buffer));
    SplitCount(Remainder(buffer));
    assert Shown(buffer) == TrimAll(parts);
  }

  /*
   * A generated text that labels four summaries "1." to "4.":
   *
   *   Here are 4 summaries:
   *   1. Alpha summary.
   *   2. Beta summary.
   *   3. Gamma summary.
   *   4. Delta summary.
   *
   * The constants below build it from its parts.
   */

  /** The text before the first `1`. */
  const FourSummariesHead := "Here are 4 summaries:\n"

  /** The three card texts the page shows for it. */
  const AlphaCard := "Alpha summary."
  const BetaCard := "Beta summary."
  const GammaCard := "Gamma summary.\n4. Delta summary."

  /** The pieces between the markers "2." and "3.": each card text with its white space. */
  const FourSummariesPieces := [AlphaCard + "\n", " " + BetaCard + "\n", " " + GammaCard]

  /** The text after "1. ". */
  const FourSummariesRest :=
    FourSummariesPieces[0] + "2." + FourSummariesPieces[1] + "3." + FourSummariesPieces[2]

  /**
   * A generated text labelled "1." to "4.": the page shows three cards, not
   * four, and the third keeps the fourth summary with its "4." marker.
   */
  lemma FourSummariesShowAsThree(buffer: string)
    requires buffer == FourSummariesHead + "1. " + FourSummariesRest
    ensures Shown(buffer) == [AlphaCard, BetaCard, GammaCard]
  {
    FourSummariesRemainder(buffer);
    FourSummariesSplit(Remainder(buffer));
    var pieces := FourSummariesPieces;
    FourSummariesTrims(pieces);
    ThreeCards(buffer, pieces, AlphaCard, BetaCard, GammaCard);
  }

  /** A non-empty buffer whose remainder splits into three pieces shows their three trims. */
  lemma ThreeCards(buffer: string, pieces: seq<string>, v0: string, v1: string, v2: string)
    requires buffer != "" && Split(Remainder(buffer)) == pieces && |pieces| == 3
    requires JsText.Trim(pieces[0]) == v0 && JsText.Trim(pieces[1]) == v1 && JsText.Trim(pieces[2]) == v2
    ensures Shown(buffer) == [v0, v1, v2]
  {
    var vs := TrimAll(pieces);
    assert Shown(buffer) == vs;
    assert vs[0] == v0 && vs[1] == v1 && vs[2] == v2;
  }

  lemma FourSummariesRemainder(buffer: string)
    requires buffer == FourSummariesHead + "1. " + FourSummariesRest
    ensures Remainder(buffer) == FourSummariesRest
  {
    assert buffer[..|FourSummariesHead|] == FourSummariesHead;
    assert buffer[|FourSummariesHead|] == '1';
    assert buffer[|FourSummariesHead| + 3..] == FourSummariesRest;
    RemainderAfterFirstOne(buffer, |FourSummariesHead|);
  }

  lemma FourSummariesSplit(rest: string)
    requires rest == FourSummariesRest
    ensures Split(rest) == FourSummariesPieces
  {
    var parts := FourSummariesPieces;
    var delims := ["2.", "3."];
    assert Join(parts[2..], delims[2..]) == parts[2];
    assert Join(parts[1..], delims[1..]) == parts[1] + "3." + parts[2];
    assert Join(parts, delims) == parts[0] + "2." + (parts[1] + "3." + parts[2]) == rest;
    FourSummariesPiecesHaveNoDelimiter(parts);
    SplitUnique(rest, parts, delims);
  }

  lemma FourSummariesPiecesHaveNoDelimiter(parts: seq<string>)
    requires parts == FourSummariesPieces
    ensures forall k :: 0 <= k < |parts| ==> !HasDelimiter(parts[k])
  {
    NoDelimiterInPiece(parts[0]);
    NoDelimiterInPiece(parts[1]);
    NoDelimiterInPiece(parts[2]);
  }

  /** A text with no `2` or `3` followed by `.` has no match. */
  lemma NoDelimiterInPiece(p: string)
    requires forall i :: 0 <= i < |p| - 1 ==> p[i] !in "23" || p[i + 1] != '.'
    ensures !HasDelimiter(p)
  {
  }

  /** Trimming a piece that is `r` with white space `a` before and `b` after. */
  lemma TrimPiece(p: string, a: string, r: string, b: string)
    requires p == a + r + b
    requires JsText.AllWhiteSpace(a) && JsText.AllWhiteSpace(b)
    requires r != "" && !JsText.IsWhiteSpace(r[0]) && !JsText.IsWhiteSpace(r[|r| - 1])
    ensures JsText.Trim(p) == r
  {
    JsText.TrimUnique(a, r, b);
  }

  lemma FourSummariesTrims(pieces: seq<string>)
    requires pieces == FourSummariesPieces
    ensures JsText.Trim(pieces[0]) == AlphaCard
    ensures JsText.Trim(pieces[1]) == BetaCard
    ensures JsText.Trim(pieces[2]) == GammaCard
  {
    FourSummariesTrimAlpha(pieces[0]);
    FourSummariesTrimBeta(pieces[1]);
    FourSummariesTrimGamma(pieces[2]);
  }

  lemma FourSummariesTrimAlpha(p: string)
    requires p == AlphaCard + "\n"
    ensures JsText.Trim(p) == AlphaCard
  {
    TrimPiece(p, "", AlphaCard, "\n");
  }

  lemma FourSummariesTrimBeta(p: string)
    requires p == " " + BetaCard + "\n"
    ensures JsText.Trim(p) == BetaCard
  {
    TrimPiece(p, " ", BetaCard, "\n");
  }

  lemma FourSummariesTrimGamma(p: string)
    requires p == " " + GammaCard
    ensures JsText.Trim(p) == GammaCard
  {
    TrimPiece(p, " ", GammaCard, "");
  }
}
