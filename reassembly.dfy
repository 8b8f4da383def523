/**
 * The two steps of `fill_madlib_template` after the producers: replacing each
 * key's marker text by its word, key by key in the dict's insertion order
 * (`filled_text.replace(placeholder_key, value)`), and rebuilding one
 * `Placeholder` record per match (`placeholder_map.get(key, "")`).
 */
module Reassembly {
  import opened Text
  import opened Models
  import opened Scanner
  import opened Producers

  // ---------------------------------------------------------------------------
  // Substitution
  // ---------------------------------------------------------------------------

  /** Every key is a well-formed marker with an entry. */
  predicate Substitutable(keys: seq<Occurrence>, entries: map<Occurrence, string>) {
    forall i | 0 <= i < |keys| :: WellFormed(keys[i]) && keys[i] in entries
  }

  /** The text after replacing the marker of each key in `keys`, in order, by its entry. */
  function SubstituteAll(text: string, keys: seq<Occurrence>, entries: map<Occurrence, string>): string
    requires Substitutable(keys, entries)
    decreases |keys|
  {
    if keys == [] then text
    else SubstituteAll(ReplaceAll(text, Marker(keys[0]), entries[keys[0]]), keys[1..], entries)
  }

  /** The substitution loop: the dict's keys in insertion order, one `str.replace` each. */
  method Substitute(text: string, d: Dict) returns (filled: string)
    requires d.Valid() && forall k | k in d.entries :: WellFormed(k)
    ensures filled == SubstituteAll(text, d.keys, d.entries)
  {
    filled := text;
    assert d.keys[0..] == d.keys;
    for i := 0 to |d.keys|
      invariant SubstituteAll(filled, d.keys[i..], d.entries) == SubstituteAll(text, d.keys, d.entries)
    {
      assert d.keys[i..][1..] == d.keys[i + 1..];
      var key := d.keys[i];
      filled := ReplaceAll(filled, Marker(key), d.entries[key]);
    }
  }

  /** A text in which `findall` finds no marker is left unchanged by the substitution. */
  lemma {:induction false} SubstituteNoMarkers(text: string, keys: seq<Occurrence>, entries: map<Occurrence, string>)
    requires Substitutable(keys, entries)
    requires Scan(text) == []
    ensures SubstituteAll(text, keys, entries) == text
  {
    if keys != [] {
      var k := keys[0];
      MarkerShape(k);
      forall i | 0 <= i <= |text| - |Marker(k)|
        ensures !OccursAt(text, i, Marker(k))
      {
        NoOccurrenceNoMarker(text, k);
      }
      ReplaceAbsent(text, Marker(k), entries[k]);
      SubstituteNoMarkers(text, keys[1..], entries);
    }
  }

  // ---------------------------------------------------------------------------
  // Substitution on a template given as literal text and slots
  // ---------------------------------------------------------------------------

  /** The pieces after one key's replacement: each slot of that key becomes the word. */
  function ReplaceSlot(ps: seq<Piece>, k: Occurrence, v: string): (r: seq<Piece>)
    ensures |r| == |ps|
    ensures forall i | 0 <= i < |ps| :: r[i] == if ps[i] == Slot(k) then Lit(v) else ps[i]
  {
    seq(|ps|, i requires 0 <= i < |ps| => if ps[i] == Slot(k) then Lit(v) else ps[i])
  }

  /** A marker at the front is replaced, and the rest is processed after it. */
  lemma ReplaceAtMarker(k: Occurrence, t: string, v: string)
    requires WellFormed(k)
    ensures ReplaceAll(Marker(k) + t, Marker(k), v) == v + ReplaceAll(t, Marker(k), v)
  {
    var s := Marker(k) + t;
    MarkerShape(k);
    assert Marker(k) <= s;
    assert s[|Marker(k)|..] == t;
  }

  /** A different marker at the front is copied through unchanged. */
  lemma ReplaceOtherMarker(o: Occurrence, k: Occurrence, t: string, v: string)
    requires WellFormed(o) && WellFormed(k) && o != k
    ensures ReplaceAll(Marker(o) + t, Marker(k), v) == Marker(o) + ReplaceAll(t, Marker(k), v)
  {
    var s := Marker(o) + t;
    var m := Marker(o);
    MarkerShape(o);
    MarkerShape(k);
    assert !(Marker(k) <= s) by {
      if Marker(k) <= s {
        MarkerPrefixUnique(o, k, t);
      }
    }
    assert s[1..] == m[1..] + t;
    ReplaceSkipsPrefix(m[1..], t, Marker(k), v);
    ConsAssoc(m[0], m[1..], ReplaceAll(t, Marker(k), v));
    assert m == [m[0]] + m[1..];
  }

  /** Literal text without `{` is copied through unchanged. */
  lemma ReplaceLiteral(lit: string, k: Occurrence, t: string, v: string)
    requires WellFormed(k) && NoOpenBrace(lit)
    ensures ReplaceAll(lit + t, Marker(k), v) == lit + ReplaceAll(t, Marker(k), v)
  {
    MarkerShape(k);
    ReplaceSkipsPrefix(lit, t, Marker(k), v);
  }

  /**
   * Replacing one key's marker in a rendered template replaces exactly the
   * slots of that key: literals and other slots come through unchanged.
   */
  lemma {:induction false} ReplaceRender(ps: seq<Piece>, k: Occurrence, v: string)
    requires WellFormedPieces(ps) && WellFormed(k) && NoOpenBrace(v)
    ensures WellFormedPieces(ReplaceSlot(ps, k, v))
    ensures ReplaceAll(Render(ps), Marker(k), v) == Render(ReplaceSlot(ps, k, v))
  {
    var r := ReplaceSlot(ps, k, v);
    if ps == [] {
      MarkerShape(k);
    } else {
      var rest := Render(ps[1..]);
      assert WellFormedPieces(ps[1..]);
      ReplaceRender(ps[1..], k, v);
      assert r[1..] == ReplaceSlot(ps[1..], k, v);
      match ps[0]
      case Lit(t) =>
        ReplaceLiteral(t, k, rest, v);
      case Slot(o) =>
        if o == k {
          ReplaceAtMarker(k, rest, v);
        } else {
          ReplaceOtherMarker(o, k, rest, v);
        }
    }
  }

  /** Every value to be substituted is free of `{`. */
  predicate BraceFreeValues(keys: seq<Occurrence>, entries: map<Occurrence, string>)
    requires Substitutable(keys, entries)
  {
    forall i | 0 <= i < |keys| :: NoOpenBrace(entries[keys[i]])
  }

  /** The pieces once every slot whose key is among `keys` has become its word. */
  function ResolveIn(ps: seq<Piece>, keys: seq<Occurrence>, entries: map<Occurrence, string>): (r: seq<Piece>)
    requires Substitutable(keys, entries)
    ensures |r| == |ps|
    ensures forall i | 0 <= i < |ps| ::
              r[i] == if ps[i].Slot? && ps[i].occ in keys then Lit(entries[ps[i].occ]) else ps[i]
  {
    seq(|ps|, i requires 0 <= i < |ps| =>
      if ps[i].Slot? && ps[i].occ in keys then Lit(entries[ps[i].occ]) else ps[i])
  }

  /**
   * The substitution loop on a rendered template: with words free of `{`,
   * every slot whose key is in the dict is replaced by its word, and every
   * other slot and all literal text survive, whatever the key order.
   */
  lemma {:induction false} SubstituteRender(ps: seq<Piece>, keys: seq<Occurrence>, entries: map<Occurrence, string>)
    requires WellFormedPieces(ps) && Substitutable(keys, entries) && BraceFreeValues(keys, entries)
    ensures WellFormedPieces(ResolveIn(ps, keys, entries))
    ensures SubstituteAll(Render(ps), keys, entries) == Render(ResolveIn(ps, keys, entries))
    decreases |keys|
  {
    if keys == [] {
      assert ResolveIn(ps, keys, entries) == ps;
    } else {
      var k := keys[0];
      var v := entries[k];
      assert NoOpenBrace(v);
      ReplaceRender(ps, k, v);
      var ps' := ReplaceSlot(ps, k, v);
      assert Substitutable(keys[1..], entries) && BraceFreeValues(keys[1..], entries);
      SubstituteRender(ps', keys[1..], entries);
      forall i | 0 <= i < |ps|
        ensures ResolveIn(ps', keys[1..], entries)[i] == ResolveIn(ps, keys, entries)[i]
      {
        if ps[i].Slot? && ps[i].occ != k {
          assert ps[i].occ in keys <==> ps[i].occ in keys[1..];
        }
      }
      assert ResolveIn(ps', keys[1..], entries) == ResolveIn(ps, keys, entries);
    }
  }

  /**
   * On a rendered template with words free of `{`, the order in which the
   * keys were inserted does not matter: only which keys are present does.
   */
  lemma SubstituteOrderIrrelevant(ps: seq<Piece>, keys: seq<Occurrence>, keys': seq<Occurrence>,
                                  entries: map<Occurrence, string>)
    requires WellFormedPieces(ps)
    requires Substitutable(keys, entries) && BraceFreeValues(keys, entries)
    requires Substitutable(keys', entries) && BraceFreeValues(keys', entries)
    requires forall k :: k in keys <==> k in keys'
    ensures SubstituteAll(Render(ps), keys, entries) == SubstituteAll(Render(ps), keys', entries)
  {
    SubstituteRender(ps, keys, entries);
    SubstituteRender(ps, keys', entries);
    assert ResolveIn(ps, keys, entries) == ResolveIn(ps, keys', entries);
  }

  // ---------------------------------------------------------------------------
  // Rebuilding the records
  // ---------------------------------------------------------------------------

  /** The record for the `id`-th match: its kind, and its key's word or "" when the key is missing. */
  function RecordFor(id: int, o: Occurrence, entries: map<Occurrence, string>): Placeholder {
    Placeholder(id, o.kind, Some(if o in entries then entries[o] else ""))
  }

  /**
   * The rebuild loop: one record per match, in match order (repeats
   * included), numbered from 1, each looked up by the match's own spelling.
   */
  method Rebuild(occs: seq<Occurrence>, entries: map<Occurrence, string>) returns (ps: seq<Placeholder>)
    ensures |ps| == |occs|
    ensures forall i | 0 <= i < |occs| :: ps[i] == RecordFor(i + 1, occs[i], entries)
  {
    ps := [];
    var id := 1;
    for i := 0 to |occs|
      invariant |ps| == i && id == i + 1
      invariant forall j | 0 <= j < i :: ps[j] == RecordFor(j + 1, occs[j], entries)
    {
      var o := occs[i];
      var value := if o in entries then entries[o] else "";
      ps := ps + [Placeholder(id, o.kind, Some(value))];
      id := id + 1;
    }
  }
}
