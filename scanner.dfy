/**
 * The marker scan of `fill_madlib_template`:
 * `re.findall(r'\{(noun|verb|adjective)_(\d+)\}', template_text)`, written as
 * a left-to-right scanner over ASCII digits that returns the matches in order.
 */
module Scanner {
  import opened Text
  import opened Models

  /** Length of the run of ASCII digits at the start of `s` (greedy `\d+`). */
  function DigitRun(s: string): (n: nat)
    ensures n <= |s|
    ensures forall i | 0 <= i < n :: IsDigit(s[i])
    ensures n == |s| || !IsDigit(s[n])
  {
    if s != [] && IsDigit(s[0]) then 1 + DigitRun(s[1..]) else 0
  }

  /** A match anchored at the start of the text: the occurrence and how many characters it spans. */
  datatype Match = Match(occ: Occurrence, len: nat)

  /** The kind whose `{kind_` prefix starts `text`, trying the alternatives in the pattern's order. */
  function KindAt(text: string): (r: Option<PlaceholderType>)
    ensures r.Some? ==> Prefix(r.value) <= text
    ensures r.None? ==> forall k :: !(Prefix(k) <= text)
  {
    if Prefix(Noun) <= text then Some(Noun)
    else if Prefix(Verb) <= text then Some(Verb)
    else if Prefix(Adjective) <= text then Some(Adjective)
    else None
  }

  /**
   * The pattern matched at the start of `text`. A match is exactly a marker:
   * it covers `Marker(occ)`, and its digit group is a non-empty digit string.
   */
  function MatchAt(text: string): (r: Option<Match>)
    ensures r.Some? ==>
              WellFormed(r.value.occ)
              && r.value.len == |Marker(r.value.occ)| <= |text|
              && text[..r.value.len] == Marker(r.value.occ)
  {
    match KindAt(text)
    case None => None
    case Some(k) =>
      var pre := Prefix(k);
      var p := |pre|;
      var d := DigitRun(text[p..]);
      if d > 0 && p + d < |text| && text[p + d] == '}' then
        var o := Occurrence(k, text[p..p + d]);
        MarkerSpan(text, k, d);
        Some(Match(o, p + d + 1))
      else
        None
  }

  /** The characters a successful match spans are the marker of its groups. */
  lemma MarkerSpan(text: string, k: PlaceholderType, d: nat)
    requires Prefix(k) <= text
    requires 0 < d && |Prefix(k)| + d < |text|
    requires forall i | 0 <= i < d :: IsDigit(text[|Prefix(k)|..][i])
    requires text[|Prefix(k)| + d] == '}'
    ensures WellFormed(Occurrence(k, text[|Prefix(k)|..|Prefix(k)| + d]))
    ensures text[..|Prefix(k)| + d + 1] == Marker(Occurrence(k, text[|Prefix(k)|..|Prefix(k)| + d]))
  {
    var pre := Prefix(k);
    var p := |pre|;
    var o := Occurrence(k, text[p..p + d]);
    assert forall i | 0 <= i < d :: o.digits[i] == text[p..][i];
    assert text[..p] == pre;
    assert text[..p + d + 1] == text[..p] + text[p..p + d] + [text[p + d]];
  }

  /**
   * `re.findall`: try a match at each position; after a match resume just past
   * it, otherwise advance one character. Every result is well formed.
   */
  function Scan(text: string): (r: seq<Occurrence>)
    ensures forall i | 0 <= i < |r| :: WellFormed(r[i])
    decreases |text|
  {
    if text == [] then []
    else
      match MatchAt(text)
      case Some(m) => [m.occ] + Scan(text[m.len..])
      case None => Scan(text[1..])
  }

  // ---------------------------------------------------------------------------
  // Markers are recognised exactly
  // ---------------------------------------------------------------------------

  lemma {:induction false} DigitRunOfDigits(d: string, rest: string)
    requires forall i | 0 <= i < |d| :: IsDigit(d[i])
    requires rest == [] || !IsDigit(rest[0])
    ensures DigitRun(d + rest) == |d|
  {
    if d == [] {
      assert d + rest == rest;
    } else {
      assert (d + rest)[1..] == d[1..] + rest;
      DigitRunOfDigits(d[1..], rest);
    }
  }

  /** The kind prefixes differ in their second character, so each one selects its own kind. */
  lemma KindAtPrefix(k: PlaceholderType, text: string)
    requires Prefix(k) <= text
    ensures KindAt(text) == Some(k)
  {
    assert text[1] == Prefix(k)[1];
  }

  /** What `MatchAt` returns once the kind, the digit run and the closing brace are known. */
  lemma MatchAtOfParts(text: string, k: PlaceholderType, d: nat)
    requires KindAt(text) == Some(k)
    requires DigitRun(text[|Prefix(k)|..]) == d && 0 < d && |Prefix(k)| + d < |text|
    requires text[|Prefix(k)| + d] == '}'
    ensures MatchAt(text)
            == Some(Match(Occurrence(k, text[|Prefix(k)|..|Prefix(k)| + d]), |Prefix(k)| + d + 1))
  {
  }

  /** Where the parts of a marker sit in a text that starts with it. */
  lemma MarkerLayout(o: Occurrence, t: string)
    requires WellFormed(o)
    ensures |Marker(o)| == |Prefix(o.kind)| + |o.digits| + 1
    ensures Prefix(o.kind) <= Marker(o) + t
    ensures (Marker(o) + t)[|Prefix(o.kind)|..] == o.digits + (Marker(o) + t)[|Prefix(o.kind)| + |o.digits|..]
    ensures (Marker(o) + t)[|Prefix(o.kind)| + |o.digits|] == '}'
  {
    var p := Prefix(o.kind);
    var text := Marker(o) + t;
    assert Marker(o) == p + o.digits + "}";
    assert text[..|p|] == p;
  }

  /** The kind, the digit run and the closing brace of a text that starts with a marker. */
  lemma MarkerParts(o: Occurrence, t: string)
    requires WellFormed(o)
    ensures KindAt(Marker(o) + t) == Some(o.kind)
    ensures DigitRun((Marker(o) + t)[|Prefix(o.kind)|..]) == |o.digits|
    ensures |Prefix(o.kind)| + |o.digits| < |Marker(o) + t|
    ensures (Marker(o) + t)[|Prefix(o.kind)| + |o.digits|] == '}'
    ensures (Marker(o) + t)[|Prefix(o.kind)|..|Prefix(o.kind)| + |o.digits|] == o.digits
    ensures |Marker(o)| == |Prefix(o.kind)| + |o.digits| + 1
  {
    var text := Marker(o) + t;
    var p := |Prefix(o.kind)|;
    var d := |o.digits|;
    MarkerLayout(o, t);
    KindAtPrefix(o.kind, text);
    DigitRunOfDigits(o.digits, text[p + d..]);
  }

  /** A text that starts with a marker matches that marker, whatever follows it. */
  lemma MatchMarker(o: Occurrence, t: string)
    requires WellFormed(o)
    ensures MatchAt(Marker(o) + t) == Some(Match(o, |Marker(o)|))
  {
    var text := Marker(o) + t;
    var p := |Prefix(o.kind)|;
    var d := |o.digits|;
    MarkerParts(o, t);
    MatchAtOfParts(text, o.kind, d);
    assert Occurrence(o.kind, text[p..p + d]) == o;
  }

  /** Two well-formed occurrences with the same marker text are the same occurrence. */
  lemma MarkerInjective(o: Occurrence, o': Occurrence)
    requires WellFormed(o) && WellFormed(o')
    requires Marker(o) == Marker(o')
    ensures o == o'
  {
    MatchMarker(o, []);
    MatchMarker(o', []);
    assert Marker(o) + [] == Marker(o);
    assert Marker(o') + [] == Marker(o');
  }

  /** A marker never starts with a strictly longer or shorter marker: prefixes of markers coincide. */
  lemma MarkerPrefixUnique(o: Occurrence, o': Occurrence, t: string)
    requires WellFormed(o) && WellFormed(o')
    requires Marker(o') <= Marker(o) + t
    ensures o == o'
  {
    var text := Marker(o) + t;
    var m := Marker(o');
    MatchMarker(o, t);
    MatchMarker(o', text[|m|..]);
    assert m + text[|m|..] == text;
  }

  /** Text without an opening brace contributes no occurrence. */
  lemma {:induction false} ScanLiteral(lit: string, t: string)
    requires NoOpenBrace(lit)
    ensures Scan(lit + t) == Scan(t)
  {
    if lit == [] {
      assert lit + t == t;
    } else {
      var text := lit + t;
      assert text[0] == lit[0] != '{';
      assert KindAt(text) == None;
      assert text[1..] == lit[1..] + t;
      ScanLiteral(lit[1..], t);
    }
  }

  /** A marker at the front of the text is found, and scanning resumes right after it. */
  lemma ScanMarker(o: Occurrence, t: string)
    requires WellFormed(o)
    ensures Scan(Marker(o) + t) == [o] + Scan(t)
  {
    MatchMarker(o, t);
    assert (Marker(o) + t)[|Marker(o)|..] == t;
  }

  /** A match never runs past an opening brace that follows its first character. */
  lemma MatchStopsAtBrace(text: string, i: nat)
    requires MatchAt(text).Some? && 0 < i < |text| && text[i] == '{'
    ensures MatchAt(text).value.len <= i
  {
    var m := MatchAt(text).value;
    var mm := Marker(m.occ);
    MarkerShape(m.occ);
    forall j | 0 < j < m.len
      ensures text[j] != '{'
    {
      assert text[..m.len][j] == text[j];
      assert mm[1..][j - 1] == mm[j];
    }
  }

  /**
   * `findall` reports every marker in the text: a marker at position `i` is
   * never swallowed by an earlier match, because markers contain no `{` after
   * their first character.
   */
  lemma {:induction false} ScanFindsMarker(text: string, i: nat, o: Occurrence)
    requires WellFormed(o) && OccursAt(text, i, Marker(o))
    ensures o in Scan(text)
    decreases |text|
  {
    var mk := Marker(o);
    MarkerShape(o);
    if i == 0 {
      assert text == mk + text[|mk|..];
      ScanMarker(o, text[|mk|..]);
    } else {
      var skip := ScanStep(text);
      assert text[i] == mk[0];
      if MatchAt(text).Some? {
        MatchStopsAtBrace(text, i);
      }
      OccursAfterShift(text, i, mk, skip);
      ScanFindsMarker(text[skip..], i - skip, o);
    }
  }

  /** One step of the scan: how far it advances, and that nothing it skips is lost. */
  lemma ScanStep(text: string) returns (skip: nat)
    requires text != []
    ensures 0 < skip <= |text|
    ensures MatchAt(text).Some? ==> skip == MatchAt(text).value.len
    ensures MatchAt(text).None? ==> skip == 1
    ensures forall o | o in Scan(text[skip..]) :: o in Scan(text)
  {
    match MatchAt(text)
    case Some(m) =>
      skip := m.len;
    case None =>
      skip := 1;
  }

  lemma OccursAfterShift(text: string, i: nat, pat: string, k: nat)
    requires OccursAt(text, i, pat) && k <= i
    ensures OccursAt(text[k..], i - k, pat)
  {
    assert text[k..][i - k..i - k + |pat|] == text[i..i + |pat|];
  }

  /** An occurrence in a suffix is an occurrence in the whole text, shifted by the cut. */
  lemma OccursBeforeShift(text: string, k: nat, p: nat, pat: string)
    requires k <= |text| && OccursAt(text[k..], p, pat)
    ensures OccursAt(text, k + p, pat)
  {
    assert text[k..][p..p + |pat|] == text[k + p..k + p + |pat|];
  }

  /**
   * `pos[j]` is where the `j`-th occurrence's marker text sits in `text`, and
   * each one starts after the previous one ends: text order, no overlap.
   */
  predicate Positioned(text: string, occs: seq<Occurrence>, pos: seq<nat>) {
    |pos| == |occs|
    && (forall j | 0 <= j < |occs| :: WellFormed(occs[j]))
    && (forall j | 0 <= j < |pos| :: OccursAt(text, pos[j], Marker(occs[j])))
    && (forall j | 0 <= j < |pos| - 1 :: pos[j] + |Marker(occs[j])| <= pos[j + 1])
  }

  function Shift(pos: seq<nat>, k: nat): (r: seq<nat>)
    ensures |r| == |pos| && forall j | 0 <= j < |pos| :: r[j] == k + pos[j]
  {
    seq(|pos|, j requires 0 <= j < |pos| => k + pos[j])
  }

  /** Positions found in a suffix, moved by the length of the cut, are positions in the whole text. */
  lemma PositionedShift(text: string, k: nat, occs: seq<Occurrence>, pos: seq<nat>)
    requires k <= |text| && Positioned(text[k..], occs, pos)
    ensures Positioned(text, occs, Shift(pos, k))
  {
    forall j | 0 <= j < |pos| ensures OccursAt(text, Shift(pos, k)[j], Marker(occs[j])) {
      OccursBeforeShift(text, k, pos[j], Marker(occs[j]));
    }
  }

  /** A marker at the very front, followed by positions after its end, extends the positions. */
  lemma PositionedCons(text: string, o: Occurrence, occs: seq<Occurrence>, pos: seq<nat>)
    requires WellFormed(o) && OccursAt(text, 0, Marker(o)) && Positioned(text, occs, pos)
    requires pos != [] ==> |Marker(o)| <= pos[0]
    ensures Positioned(text, [o] + occs, [0] + pos)
  {
    var occs', pos' := [o] + occs, [0] + pos;
    forall j | 0 <= j < |pos'| ensures OccursAt(text, pos'[j], Marker(occs'[j])) {
      if j > 0 {
        assert pos'[j] == pos[j - 1] && occs'[j] == occs[j - 1];
      }
    }
    forall j | 0 <= j < |pos'| - 1 ensures pos'[j] + |Marker(occs'[j])| <= pos'[j + 1] {
      if j > 0 {
        assert pos'[j] == pos[j - 1] && occs'[j] == occs[j - 1] && pos'[j + 1] == pos[j];
      }
    }
  }

  /** Every marker occurrence in `text`, at its own position, is one of the positioned occurrences. */
  ghost predicate Covered(text: string, occs: seq<Occurrence>, pos: seq<nat>)
    requires |pos| == |occs|
  {
    forall i: nat, o | WellFormed(o) && OccursAt(text, i, Marker(o)) ::
      exists j | 0 <= j < |pos| :: pos[j] == i && occs[j] == o
  }

  /** A marker at the front of the text is what the match there finds. */
  lemma FrontMarkerMatch(text: string, o: Occurrence)
    requires WellFormed(o) && OccursAt(text, 0, Marker(o))
    ensures MatchAt(text) == Some(Match(o, |Marker(o)|))
  {
    var mk := Marker(o);
    assert text == mk + text[|mk|..];
    MatchMarker(o, text[|mk|..]);
  }

  /** A marker after the front of a text lies past the match there, in the rest of the text. */
  lemma MarkerAfterMatch(text: string, i: nat, o: Occurrence)
    requires MatchAt(text).Some? && WellFormed(o) && OccursAt(text, i, Marker(o)) && 0 < i
    ensures MatchAt(text).value.len <= i
    ensures OccursAt(text[MatchAt(text).value.len..], i - MatchAt(text).value.len, Marker(o))
  {
    MarkerShape(o);
    assert text[i] == Marker(o)[0];
    MatchStopsAtBrace(text, i);
    OccursAfterShift(text, i, Marker(o), MatchAt(text).value.len);
  }

  /** A text that starts with a match: a marker at the front is that match, and none starts inside it. */
  lemma CoveredAfterMatch(text: string, occs: seq<Occurrence>, pos: seq<nat>)
    requires MatchAt(text).Some? && |pos| == |occs|
    requires Covered(text[MatchAt(text).value.len..], occs, pos)
    ensures Covered(text, [MatchAt(text).value.occ] + occs, [0] + Shift(pos, MatchAt(text).value.len))
  {
    var m := MatchAt(text).value;
    var occs', pos' := [m.occ] + occs, [0] + Shift(pos, m.len);
    forall i: nat, o | WellFormed(o) && OccursAt(text, i, Marker(o))
      ensures exists j | 0 <= j < |pos'| :: pos'[j] == i && occs'[j] == o
    {
      if i == 0 {
        FrontMarkerMatch(text, o);
        assert pos'[0] == i && occs'[0] == o;
      } else {
        MarkerAfterMatch(text, i, o);
        var j :| 0 <= j < |pos| && pos[j] == i - m.len && occs[j] == o;
        assert pos'[j + 1] == i && occs'[j + 1] == o;
      }
    }
  }

  /** A text that does not start with a match: no marker starts at its front. */
  lemma CoveredAfterSkip(text: string, occs: seq<Occurrence>, pos: seq<nat>)
    requires text != [] && MatchAt(text).None? && |pos| == |occs|
    requires Covered(text[1..], occs, pos)
    ensures Covered(text, occs, Shift(pos, 1))
  {
    forall i: nat, o | WellFormed(o) && OccursAt(text, i, Marker(o))
      ensures exists j | 0 <= j < |pos| :: Shift(pos, 1)[j] == i && occs[j] == o
    {
      if i == 0 {
        FrontMarkerMatch(text, o);
        assert false;
      }
      OccursAfterShift(text, i, Marker(o), 1);
      var j :| 0 <= j < |pos| && pos[j] == i - 1 && occs[j] == o;
      assert Shift(pos, 1)[j] == i;
    }
  }

  /**
   * Where the matches of `findall` sit, for any text: each one is marker
   * text at its position, they come in text order without overlapping, and
   * every marker occurrence in the text is matched at its own position.
   */
  lemma {:induction false} ScanPositions(text: string) returns (pos: seq<nat>)
    ensures Positioned(text, Scan(text), pos)
    ensures Covered(text, Scan(text), pos)
    decreases |text|
  {
    if text == [] {
      pos := [];
    } else {
      match MatchAt(text)
      case Some(m) =>
        var rest := text[m.len..];
        var tail := ScanPositions(rest);
        PositionedShift(text, m.len, Scan(rest), tail);
        assert OccursAt(text, 0, Marker(m.occ));
        PositionedCons(text, m.occ, Scan(rest), Shift(tail, m.len));
        CoveredAfterMatch(text, Scan(rest), tail);
        pos := [0] + Shift(tail, m.len);
      case None =>
        var tail := ScanPositions(text[1..]);
        PositionedShift(text, 1, Scan(text[1..]), tail);
        CoveredAfterSkip(text, Scan(text[1..]), tail);
        pos := Shift(tail, 1);
    }
  }

  /** Every match of `findall` is marker text found somewhere in the template. */
  lemma ScanSound(text: string, o: Occurrence)
    requires o in Scan(text)
    ensures exists i :: OccursAt(text, i, Marker(o))
  {
    var pos := ScanPositions(text);
    var j :| 0 <= j < |Scan(text)| && Scan(text)[j] == o;
    assert OccursAt(text, pos[j], Marker(Scan(text)[j]));
  }

  /** A text in which the scan finds nothing contains no marker at all. */
  lemma NoOccurrenceNoMarker(text: string, o: Occurrence)
    requires WellFormed(o) && Scan(text) == []
    ensures forall i | 0 <= i <= |text| - |Marker(o)| :: !OccursAt(text, i, Marker(o))
  {
    forall i | 0 <= i <= |text| - |Marker(o)|
      ensures !OccursAt(text, i, Marker(o))
    {
      if OccursAt(text, i, Marker(o)) {
        ScanFindsMarker(text, i, o);
      }
    }
  }

  // ---------------------------------------------------------------------------
  // Round trip: a template built from literal text and markers scans back to
  // exactly its markers, in order
  // ---------------------------------------------------------------------------

  /** A piece of template text: literal words, or one marker. */
  datatype Piece = Lit(text: string) | Slot(occ: Occurrence)

  predicate WellFormedPiece(p: Piece) {
    match p
    case Lit(s) => NoOpenBrace(s)
    case Slot(o) => WellFormed(o)
  }

  predicate WellFormedPieces(ps: seq<Piece>) {
    forall i | 0 <= i < |ps| :: WellFormedPiece(ps[i])
  }

  function RenderPiece(p: Piece): string
    requires WellFormedPiece(p)
  {
    match p
    case Lit(s) => s
    case Slot(o) => Marker(o)
  }

  /** The template text the pieces spell out. */
  function Render(ps: seq<Piece>): string
    requires WellFormedPieces(ps)
  {
    if ps == [] then [] else RenderPiece(ps[0]) + Render(ps[1..])
  }

  /** The markers among the pieces, in order. */
  function Slots(ps: seq<Piece>): seq<Occurrence> {
    if ps == [] then []
    else (if ps[0].Slot? then [ps[0].occ] else []) + Slots(ps[1..])
  }

  lemma {:induction false} ScanRender(ps: seq<Piece>)
    requires WellFormedPieces(ps)
    ensures Scan(Render(ps)) == Slots(ps)
  {
    if ps != [] {
      ScanRender(ps[1..]);
      match ps[0]
      case Lit(s) => ScanLiteral(s, Render(ps[1..]));
      case Slot(o) => ScanMarker(o, Render(ps[1..]));
    }
  }
}
