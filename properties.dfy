/**
 * What a successful fill guarantees, stated over the template text and the
 * outside inputs: which markers get a word and which word, which are left
 * behind (zip truncation, leading zeros), and how the filled text relates to
 * the template's literal text and markers.
 */
module FillProperties {
  import opened Text
  import opened Models
  import opened Scanner
  import opened Grouping
  import opened Producers
  import opened Reassembly
  import opened Fill

  // ---------------------------------------------------------------------------
  // Which keys the dict holds, and their words
  // ---------------------------------------------------------------------------

  /** The `j`-th index of a kind is written with the `j`-th word of its producer. */
  lemma ProducedValue(text: string, inp: Inputs, kind: PlaceholderType, j: nat)
    requires j < |Indices(text, kind)| && j < |Words(inp, kind)|
    ensures Key(kind, Indices(text, kind)[j]) in Produced(text, inp, kind)
    ensures Produced(text, inp, kind)[Key(kind, Indices(text, kind)[j])] == Words(inp, kind)[j]
  {
    var pairs := Zip(Indices(text, kind), Words(inp, kind));
    ZipDistinct(Indices(text, kind), Words(inp, kind));
    PairEntriesValues(kind, pairs);
    assert pairs[j] == (Indices(text, kind)[j], Words(inp, kind)[j]);
  }

  /**
   * `placeholder_map[f"{{kind_{num}}}"] = word` for the `j`-th sorted index
   * and the `j`-th word: no other producer overwrites that key.
   */
  lemma FilledValue(text: string, inp: Inputs, kind: PlaceholderType, j: nat)
    requires j < |Indices(text, kind)| && j < |Words(inp, kind)|
    ensures Key(kind, Indices(text, kind)[j]) in FilledMap(text, inp)
    ensures FilledMap(text, inp)[Key(kind, Indices(text, kind)[j])] == Words(inp, kind)[j]
  {
    ProducedValue(text, inp, kind, j);
    EntriesKind(Noun, Indices(text, Noun), Words(inp, Noun));
    EntriesKind(Verb, Indices(text, Verb), Words(inp, Verb));
    EntriesKind(Adjective, Indices(text, Adjective), Words(inp, Adjective));
  }

  /** A key in the dict is the key of the `j`-th index of its kind, for a `j` within the producer's words. */
  lemma FilledKeySource(text: string, inp: Inputs, o: Occurrence) returns (j: nat)
    requires o in FilledMap(text, inp)
    ensures j < |Indices(text, o.kind)| && j < |Words(inp, o.kind)|
    ensures o == Key(o.kind, Indices(text, o.kind)[j])
  {
    var kind := o.kind;
    assert o in Produced(text, inp, kind) by {
      EntriesKind(Noun, Indices(text, Noun), Words(inp, Noun));
      EntriesKind(Verb, Indices(text, Verb), Words(inp, Verb));
      EntriesKind(Adjective, Indices(text, Adjective), Words(inp, Adjective));
    }
    var pairs := Zip(Indices(text, kind), Words(inp, kind));
    PairEntriesKeys(kind, pairs);
    j :| 0 <= j < |pairs| && KeyList(kind, pairs)[j] == o;
  }

  /**
   * The dict holds a key exactly when it is the key of one of the first
   * `min(#indices, #words)` indices of its kind: `zip` drops the rest.
   */
  lemma FilledKeyIndex(text: string, inp: Inputs, o: Occurrence)
    ensures o in FilledMap(text, inp) <==>
              exists j | 0 <= j < |Indices(text, o.kind)| && j < |Words(inp, o.kind)| ::
                o == Key(o.kind, Indices(text, o.kind)[j])
  {
    var kind := o.kind;
    if o in FilledMap(text, inp) {
      var j := FilledKeySource(text, inp, o);
    }
    if exists j | 0 <= j < |Indices(text, kind)| && j < |Words(inp, kind)| :: o == Key(kind, Indices(text, kind)[j]) {
      var j :| 0 <= j < |Indices(text, kind)| && j < |Words(inp, kind)| && o == Key(kind, Indices(text, kind)[j]);
      FilledValue(text, inp, kind, j);
    }
  }

  /** Every value in the dict is one of the words its kind's producer returned. */
  lemma FilledWords(text: string, inp: Inputs, o: Occurrence)
    requires o in FilledMap(text, inp)
    ensures FilledMap(text, inp)[o] in Words(inp, o.kind)
  {
    var j := FilledKeySource(text, inp, o);
    FilledValue(text, inp, o.kind, j);
  }

  /** Merging two dicts with disjoint keys keeps every entry of both. */
  lemma DisjointUnionSize(a: map<Occurrence, string>, b: map<Occurrence, string>)
    requires a.Keys !! b.Keys
    ensures |a + b| == |a| + |b|
  {
    assert (a + b).Keys == a.Keys + b.Keys;
    assert |(a + b).Keys| == |a.Keys| + |b.Keys|;
  }

  /** The merged dict has exactly as many entries as the three producers wrote together. */
  lemma FilledMapSize(text: string, inp: Inputs)
    ensures |FilledMap(text, inp)|
            == |Produced(text, inp, Noun)| + |Produced(text, inp, Verb)| + |Produced(text, inp, Adjective)|
  {
    var n, v, a := Produced(text, inp, Noun), Produced(text, inp, Verb), Produced(text, inp, Adjective);
    EntriesDisjoint(Noun, Indices(text, Noun), Words(inp, Noun), Verb, Indices(text, Verb), Words(inp, Verb));
    EntriesDisjoint(Noun, Indices(text, Noun), Words(inp, Noun), Adjective, Indices(text, Adjective), Words(inp, Adjective));
    EntriesDisjoint(Verb, Indices(text, Verb), Words(inp, Verb), Adjective, Indices(text, Adjective), Words(inp, Adjective));
    DisjointUnionSize(n, v);
    assert (n + v).Keys == n.Keys + v.Keys;
    DisjointUnionSize(n + v, a);
  }

  /** Dicts whose keys carry the kind they are filed under can be merged in any order of the kinds. */
  lemma MergeByKind(byKind: PlaceholderType -> map<Occurrence, string>,
                    k1: PlaceholderType, k2: PlaceholderType, k3: PlaceholderType)
    requires k1 != k2 && k1 != k3 && k2 != k3
    requires forall k: PlaceholderType, o | o in byKind(k) :: o.kind == k
    ensures byKind(k1) + byKind(k2) + byKind(k3) == byKind(Noun) + byKind(Verb) + byKind(Adjective)
  {
    var m := byKind(k1) + byKind(k2) + byKind(k3);
    var f := byKind(Noun) + byKind(Verb) + byKind(Adjective);
    forall o ensures o in m <==> o in f {
      assert o in m <==> o in byKind(o.kind);
      assert o in f <==> o in byKind(o.kind);
    }
    forall o | o in m ensures m[o] == f[o] {
      assert m[o] == byKind(o.kind)[o];
      assert f[o] == byKind(o.kind)[o];
    }
  }

  /**
   * The merged dict does not depend on the order the producers finish in:
   * merging their entries in any order of the three kinds gives the same dict.
   */
  lemma FilledMapOrder(text: string, inp: Inputs, k1: PlaceholderType, k2: PlaceholderType, k3: PlaceholderType)
    requires k1 != k2 && k1 != k3 && k2 != k3
    ensures Produced(text, inp, k1) + Produced(text, inp, k2) + Produced(text, inp, k3) == FilledMap(text, inp)
  {
    var byKind := k => Produced(text, inp, k);
    forall k: PlaceholderType, o | o in byKind(k) ensures o.kind == k {
      EntriesKind(k, Indices(text, k), Words(inp, k));
    }
    MergeByKind(byKind, k1, k2, k3);
  }

  // ---------------------------------------------------------------------------
  // What a successful fill leaves behind
  // ---------------------------------------------------------------------------

  /** A batch producer that ran and succeeded has exactly five words. */
  lemma BatchWordCount(text: string, inp: Inputs, kind: PlaceholderType)
    requires kind != Noun && Failure(text, inp).None? && Indices(text, kind) != []
    ensures |Words(inp, kind)| == BatchSize
  {
  }

  /**
   * An index beyond the producer's words (the sixth distinct verb or
   * adjective index and later, or a noun index past the input) has no key, so
   * its record holds "" and its marker is not substituted.
   */
  lemma TruncatedIndex(text: string, inp: Inputs, kind: PlaceholderType, j: nat)
    requires |Words(inp, kind)| <= j < |Indices(text, kind)|
    ensures Key(kind, Indices(text, kind)[j]) !in FilledMap(text, inp)
    ensures RecordFor(1, Key(kind, Indices(text, kind)[j]), FilledMap(text, inp)).filledValue == Some("")
  {
    var o := Key(kind, Indices(text, kind)[j]);
    if o in FilledMap(text, inp) {
      var j' := FilledKeySource(text, inp, o);
      KeyInjective(kind, Indices(text, kind)[j], kind, Indices(text, kind)[j']);
      assert false;
    }
  }

  /** A successful fill of a template with six or more distinct verb indices leaves the sixth one unfilled. */
  lemma VerbOverflow(text: string, inp: Inputs)
    requires Failure(text, inp).None? && |Indices(text, Verb)| > BatchSize
    ensures Key(Verb, Indices(text, Verb)[BatchSize]) !in FilledMap(text, inp)
  {
    BatchWordCount(text, inp, Verb);
    TruncatedIndex(text, inp, Verb, BatchSize);
  }

  /**
   * A marker whose digits have a leading zero, such as `{noun_01}`, is never
   * a key: the producers key `str(int("01"))`, that is `{noun_1}`.
   */
  lemma LeadingZeroUnfilled(text: string, inp: Inputs, o: Occurrence)
    requires WellFormed(o) && !IsCanonical(o.digits)
    ensures o !in FilledMap(text, inp)
    ensures RecordFor(1, o, FilledMap(text, inp)).filledValue == Some("")
  {
    FilledKeysShape(text, inp);
  }

  /**
   * With no more than five distinct verb and adjective indices each and
   * only canonical digits, a successful fill has a word for every match.
   */
  lemma EveryMatchFilled(text: string, inp: Inputs)
    requires Failure(text, inp).None?
    requires |Indices(text, Verb)| <= BatchSize && |Indices(text, Adjective)| <= BatchSize
    requires forall i | 0 <= i < |Scan(text)| :: IsCanonical(Scan(text)[i].digits)
    ensures forall i | 0 <= i < |Scan(text)| :: Scan(text)[i] in FilledMap(text, inp)
  {
    var occs := Scan(text);
    forall i | 0 <= i < |occs| ensures occs[i] in FilledMap(text, inp) {
      var o := occs[i];
      var kind := o.kind;
      var n := Value(o.digits);
      assert n in IndexSet(occs, kind);
      var j :| 0 <= j < |Indices(text, kind)| && Indices(text, kind)[j] == n;
      if kind != Noun {
        BatchWordCount(text, inp, kind);
      }
      FilledValue(text, inp, kind, j);
      NatStrOfValue(o.digits);
      assert Key(kind, n) == o;
    }
  }

  // ---------------------------------------------------------------------------
  // The filled text
  // ---------------------------------------------------------------------------

  /** A template without markers needs no input, cannot fail, and comes back unchanged with no records. */
  lemma NoMarkers(text: string, inp: Inputs)
    requires Scan(text) == []
    ensures Failure(text, inp).None?
    ensures FilledText(text, inp) == text
    ensures Records(Scan(text), FilledMap(text, inp)) == []
  {
    assert Indices(text, Noun) == [] && Indices(text, Verb) == [] && Indices(text, Adjective) == [];
    FilledKeysShape(text, inp);
    SubstituteNoMarkers(text, FilledKeys(text, inp), FilledMap(text, inp));
  }

  /** No producer returns a word containing `{`. */
  predicate BraceFreeWords(inp: Inputs) {
    forall kind: PlaceholderType, i | 0 <= i < |Words(inp, kind)| :: NoOpenBrace(Words(inp, kind)[i])
  }

  /** The pieces of a template once every slot with a key has become that key's word. */
  function FilledPieces(ps: seq<Piece>, text: string, inp: Inputs): seq<Piece> {
    FilledKeysShape(text, inp);
    ResolveIn(ps, FilledKeys(text, inp), FilledMap(text, inp))
  }

  /**
   * For a template made of `{`-free literal text and markers, and words free
   * of `{`, the substitution loop turns each marker with a key into its word
   * and leaves everything else as written.
   */
  lemma FilledTextOfPieces(text: string, inp: Inputs, ps: seq<Piece>)
    requires WellFormedPieces(ps) && text == Render(ps) && BraceFreeWords(inp)
    ensures WellFormedPieces(FilledPieces(ps, text, inp))
    ensures FilledText(text, inp) == Render(FilledPieces(ps, text, inp))
    ensures forall i | 0 <= i < |ps| ::
              FilledPieces(ps, text, inp)[i]
              == if ps[i].Slot? && ps[i].occ in FilledMap(text, inp) then Lit(FilledMap(text, inp)[ps[i].occ]) else ps[i]
  {
    var keys := FilledKeys(text, inp);
    var m := FilledMap(text, inp);
    FilledKeysShape(text, inp);
    forall i | 0 <= i < |keys| ensures NoOpenBrace(m[keys[i]]) {
      FilledWords(text, inp, keys[i]);
      var w := m[keys[i]];
      var j :| 0 <= j < |Words(inp, keys[i].kind)| && Words(inp, keys[i].kind)[j] == w;
    }
    SubstituteRender(ps, keys, m);
  }
}
