/**
 * The three word producers of `fill_madlib_template` and the dict they share.
 *
 * `placeholder_map` is a Python dict: lookups by key, iteration in insertion
 * order. `get_nouns` fills it one index at a time from `get_user_noun`'s
 * validate-and-retry loop; `get_verbs` and `get_adjectives` zip a generated
 * batch onto the sorted index list. The producers are run one after another:
 * each writes only keys that start with its own `{kind_` prefix.
 */
module Producers {
  import opened Text
  import opened Models
  import opened Grouping

  // ---------------------------------------------------------------------------
  // The dict
  // ---------------------------------------------------------------------------

  /**
   * `placeholder_map`: its keys in insertion order, and its contents. A key is
   * held in parsed form; its text is `Marker(key)`, and since `Marker` is
   * injective (`Scanner.MarkerInjective`) this is the same dict as one keyed
   * by the marker strings.
   */
  datatype Dict = Dict(keys: seq<Occurrence>, entries: map<Occurrence, string>) {
    /** The keys are listed once each, and exactly the keys of the contents are listed. */
    predicate Valid() {
      (forall i, j | 0 <= i < j < |keys| :: keys[i] != keys[j])
      && (forall k | k in entries :: k in keys)
      && (forall i | 0 <= i < |keys| :: keys[i] in entries)
    }
  }

  const EmptyDict := Dict([], map[])

  /** `d[k] = v`: a new key is appended to the order, an existing key keeps its place. */
  function Put(d: Dict, k: Occurrence, v: string): (r: Dict)
    requires d.Valid()
    ensures r.Valid()
    ensures r.entries == d.entries[k := v]
    ensures k in d.entries ==> r.keys == d.keys
    ensures k !in d.entries ==> r.keys == d.keys + [k]
  {
    if k in d.entries then Dict(d.keys, d.entries[k := v])
    else Dict(d.keys + [k], d.entries[k := v])
  }

  // ---------------------------------------------------------------------------
  // Keys
  // ---------------------------------------------------------------------------

  /** Two producer keys are equal only for the same kind and the same integer. */
  lemma KeyInjective(k: PlaceholderType, n: nat, k': PlaceholderType, n': nat)
    requires Key(k, n) == Key(k', n')
    ensures k == k' && n == n'
  {
    NatStrInjective(n, n');
  }

  /** `zip(xs, ys)`: pairs up elements by position and stops at the shorter list. */
  function Zip<A, B>(xs: seq<A>, ys: seq<B>): (r: seq<(A, B)>)
    ensures |r| == if |xs| < |ys| then |xs| else |ys|
    ensures forall i | 0 <= i < |r| :: r[i] == (xs[i], ys[i])
  {
    if xs == [] || ys == [] then [] else [(xs[0], ys[0])] + Zip(xs[1..], ys[1..])
  }

  /** The keys written for the indices of `pairs`, in the order they are written. */
  function KeyList(kind: PlaceholderType, pairs: seq<(nat, string)>): (r: seq<Occurrence>)
    ensures |r| == |pairs|
    ensures forall i | 0 <= i < |pairs| :: r[i] == Key(kind, pairs[i].0)
  {
    seq(|pairs|, i requires 0 <= i < |pairs| => Key(kind, pairs[i].0))
  }

  predicate DistinctIndices(pairs: seq<(nat, string)>) {
    forall i, j | 0 <= i < j < |pairs| :: pairs[i].0 != pairs[j].0
  }

  lemma ZipDistinct(numbers: seq<nat>, words: seq<string>)
    requires StrictlyIncreasing(numbers)
    ensures DistinctIndices(Zip(numbers, words))
  {
  }

  /**
   * What `for num, w in pairs: d[key(num)] = w` adds to the contents, pair by
   * pair, so that a later pair overrides an earlier one with the same index.
   */
  function PairEntries(kind: PlaceholderType, pairs: seq<(nat, string)>): map<Occurrence, string> {
    if pairs == [] then map[]
    else
      var n := |pairs| - 1;
      PairEntries(kind, pairs[..n])[Key(kind, pairs[n].0) := pairs[n].1]
  }

  /** Writing the next pair updates exactly that pair's key. */
  lemma PairEntriesSnoc(kind: PlaceholderType, pairs: seq<(nat, string)>, i: nat)
    requires i < |pairs|
    ensures PairEntries(kind, pairs[..i + 1]) == PairEntries(kind, pairs[..i])[Key(kind, pairs[i].0) := pairs[i].1]
  {
    assert pairs[..i + 1][..i] == pairs[..i];
  }

  /** The keys written are exactly the keys of the pairs' indices. */
  lemma {:induction false} PairEntriesKeys(kind: PlaceholderType, pairs: seq<(nat, string)>)
    ensures forall k :: k in PairEntries(kind, pairs) <==> k in KeyList(kind, pairs)
  {
    if pairs != [] {
      var n := |pairs| - 1;
      PairEntriesKeys(kind, pairs[..n]);
      assert KeyList(kind, pairs) == KeyList(kind, pairs[..n]) + [Key(kind, pairs[n].0)];
    }
  }

  /** The key of a pair never appears among the keys of pairs with other indices. */
  lemma KeyNotListed(kind: PlaceholderType, pairs: seq<(nat, string)>, n: nat)
    requires forall i | 0 <= i < |pairs| :: pairs[i].0 != n
    ensures Key(kind, n) !in KeyList(kind, pairs)
  {
    if Key(kind, n) in KeyList(kind, pairs) {
      var j :| 0 <= j < |pairs| && KeyList(kind, pairs)[j] == Key(kind, n);
      KeyInjective(kind, pairs[j].0, kind, n);
    }
  }

  /** With distinct indices there is one entry per pair, holding that pair's word. */
  lemma {:induction false} PairEntriesValues(kind: PlaceholderType, pairs: seq<(nat, string)>)
    requires DistinctIndices(pairs)
    ensures |PairEntries(kind, pairs)| == |pairs|
    ensures forall i | 0 <= i < |pairs| ::
              Key(kind, pairs[i].0) in PairEntries(kind, pairs)
              && PairEntries(kind, pairs)[Key(kind, pairs[i].0)] == pairs[i].1
  {
    if pairs != [] {
      var n := |pairs| - 1;
      var init := pairs[..n];
      var k := Key(kind, pairs[n].0);
      var prev := PairEntries(kind, init);
      assert k !in prev by {
        PairEntriesKeys(kind, init);
        KeyNotListed(kind, init, pairs[n].0);
      }
      assert DistinctIndices(init);
      PairEntriesValues(kind, init);
      assert PairEntries(kind, pairs) == prev[k := pairs[n].1];
      forall i | 0 <= i < n
        ensures Key(kind, pairs[i].0) != k
      {
        if Key(kind, pairs[i].0) == k {
          KeyInjective(kind, pairs[i].0, kind, pairs[n].0);
        }
      }
    }
  }

  /** The entries a producer adds for `numbers` zipped with `words`. */
  function Entries(kind: PlaceholderType, numbers: seq<nat>, words: seq<string>): map<Occurrence, string> {
    PairEntries(kind, Zip(numbers, words))
  }

  // ---------------------------------------------------------------------------
  // Nouns: get_user_noun and get_nouns
  // ---------------------------------------------------------------------------

  /**
   * The words the noun loop accepts from a script of raw input lines: every
   * line, stripped, that the validator calls a noun, in input order.
   */
  function AcceptedWords(script: seq<string>, isNoun: string -> bool): (r: seq<string>)
    ensures forall i | 0 <= i < |r| :: isNoun(r[i])
  {
    if script == [] then []
    else
      var w := Strip(script[0]);
      (if isNoun(w) then [w] else []) + AcceptedWords(script[1..], isNoun)
  }

  /** The words accepted from line `i` on: line `i`'s word if it passes, then those after it. */
  lemma AcceptedWordsFrom(script: seq<string>, isNoun: string -> bool, i: nat)
    requires i < |script|
    ensures AcceptedWords(script[i..], isNoun)
            == (if isNoun(Strip(script[i])) then [Strip(script[i])] else []) + AcceptedWords(script[i + 1..], isNoun)
  {
    assert script[i..][1..] == script[i + 1..];
  }

  /**
   * `get_user_noun`: read a line, strip it, ask the validator; repeat until a
   * candidate is accepted. `script` stands for the lines `input()` would
   * return; when it runs out, `input()` raises `EOFError` and nothing is
   * accepted. `used` is how many lines were read.
   */
  method GetUserNoun(script: seq<string>, isNoun: string -> bool)
    returns (accepted: bool, noun: string, used: nat)
    ensures used <= |script|
    ensures accepted <==> AcceptedWords(script, isNoun) != []
    ensures accepted ==> 0 < used && noun == Strip(script[used - 1]) && isNoun(noun)
    ensures accepted ==> noun == AcceptedWords(script, isNoun)[0]
    ensures accepted ==> AcceptedWords(script[used..], isNoun) == AcceptedWords(script, isNoun)[1..]
    ensures !accepted ==> used == |script|
    ensures forall i | 0 <= i < (if accepted then used - 1 else used) :: !isNoun(Strip(script[i]))
  {
    var i := 0;
    while i < |script|
      invariant 0 <= i <= |script|
      invariant forall j | 0 <= j < i :: !isNoun(Strip(script[j]))
      invariant AcceptedWords(script[i..], isNoun) == AcceptedWords(script, isNoun)
    {
      var candidate := Strip(script[i]);
      AcceptedWordsFrom(script, isNoun, i);
      if isNoun(candidate) {
        return true, candidate, i + 1;
      }
      assert forall j | 0 <= j < i + 1 :: !isNoun(Strip(script[j])) by {
        assert !isNoun(Strip(script[i]));
      }
      i := i + 1;
    }
    return false, "", |script|;
  }

  /** No key the producer is about to write is in the dict yet, and the indices are distinct. */
  predicate Fresh(d: Dict, kind: PlaceholderType, numbers: seq<nat>) {
    StrictlyIncreasing(numbers) && forall i | 0 <= i < |numbers| :: Key(kind, numbers[i]) !in d.entries
  }

  /** Writing pair `i` on top of the first `i` pairs gives the first `i + 1` pairs. */
  lemma EntriesStep(m0: map<Occurrence, string>, kind: PlaceholderType, pairs: seq<(nat, string)>, i: nat)
    requires i < |pairs|
    ensures (m0 + PairEntries(kind, pairs[..i]))[Key(kind, pairs[i].0) := pairs[i].1]
            == m0 + PairEntries(kind, pairs[..i + 1])
  {
    PairEntriesSnoc(kind, pairs, i);
  }

  lemma KeyListSnoc(kind: PlaceholderType, pairs: seq<(nat, string)>, i: nat)
    requires i < |pairs|
    ensures KeyList(kind, pairs[..i + 1]) == KeyList(kind, pairs[..i]) + [Key(kind, pairs[i].0)]
  {
  }

  /** With distinct indices and keys new to `m0`, pair `i`'s key has not been written yet. */
  lemma FreshStep(m0: map<Occurrence, string>, kind: PlaceholderType, pairs: seq<(nat, string)>, i: nat)
    requires i < |pairs| && DistinctIndices(pairs)
    requires forall j | 0 <= j < |pairs| :: Key(kind, pairs[j].0) !in m0
    ensures Key(kind, pairs[i].0) !in m0 + PairEntries(kind, pairs[..i])
  {
    PairEntriesKeys(kind, pairs[..i]);
    KeyNotListed(kind, pairs[..i], pairs[i].0);
  }

  /** The pairs have distinct indices and none of their keys is in `d` yet. */
  predicate FreshPairs(d: Dict, kind: PlaceholderType, pairs: seq<(nat, string)>) {
    DistinctIndices(pairs) && forall j | 0 <= j < |pairs| :: Key(kind, pairs[j].0) !in d.entries
  }

  lemma FreshZip(d: Dict, kind: PlaceholderType, numbers: seq<nat>, words: seq<string>)
    requires Fresh(d, kind, numbers)
    ensures FreshPairs(d, kind, Zip(numbers, words))
  {
    ZipDistinct(numbers, words);
  }

  /** One iteration of a producer loop: `d` has the first `i` pairs written on top of `d0`. */
  lemma WriteStep(d0: Dict, d: Dict, kind: PlaceholderType, pairs: seq<(nat, string)>, i: nat)
    requires d.Valid() && i < |pairs|
    requires d.entries == d0.entries + PairEntries(kind, pairs[..i])
    requires FreshPairs(d0, kind, pairs) ==> d.keys == d0.keys + KeyList(kind, pairs[..i])
    ensures Put(d, Key(kind, pairs[i].0), pairs[i].1).entries == d0.entries + PairEntries(kind, pairs[..i + 1])
    ensures FreshPairs(d0, kind, pairs) ==>
              Put(d, Key(kind, pairs[i].0), pairs[i].1).keys == d0.keys + KeyList(kind, pairs[..i + 1])
  {
    EntriesStep(d0.entries, kind, pairs, i);
    if FreshPairs(d0, kind, pairs) {
      FreshStep(d0.entries, kind, pairs, i);
      KeyListSnoc(kind, pairs, i);
    }
  }

  /**
   * `placeholder_map[key(num)] = w` as the `i`-th write of a producer loop over
   * `pairs`: the dict then holds the first `i + 1` pairs on top of `d0`.
   */
  method WritePair(ghost d0: Dict, d: Dict, kind: PlaceholderType, ghost pairs: seq<(nat, string)>,
                   i: nat, num: nat, w: string)
    returns (d': Dict)
    requires d.Valid() && i < |pairs| && pairs[i] == (num, w)
    requires d.entries == d0.entries + PairEntries(kind, pairs[..i])
    requires FreshPairs(d0, kind, pairs) ==> d.keys == d0.keys + KeyList(kind, pairs[..i])
    ensures d'.Valid() && d'.entries == d0.entries + PairEntries(kind, pairs[..i + 1])
    ensures FreshPairs(d0, kind, pairs) ==> d'.keys == d0.keys + KeyList(kind, pairs[..i + 1])
  {
    WriteStep(d0, d, kind, pairs, i);
    d' := Put(d, Key(kind, num), w);
  }

  /**
   * One iteration of `get_nouns`: ask for noun `num` (the `i`-th index) on the
   * remaining input, and record it. It fails exactly when the remaining input
   * holds no acceptable word, which happens once the `i` words before it have
   * used up all the accepted ones.
   */
  method NounStep(ghost d0: Dict, d: Dict, numbers: seq<nat>, ghost words: seq<string>, ghost pairs: seq<(nat, string)>,
                  i: nat, rest: seq<string>, isNoun: string -> bool)
    returns (accepted: bool, d': Dict, rest': seq<string>)
    requires pairs == Zip(numbers, words) && i < |numbers| && i <= |words|
    requires AcceptedWords(rest, isNoun) == words[i..]
    requires d.Valid() && d.entries == d0.entries + PairEntries(Noun, pairs[..i])
    requires FreshPairs(d0, Noun, pairs) ==> d.keys == d0.keys + KeyList(Noun, pairs[..i])
    ensures accepted <==> i < |words|
    ensures accepted ==> AcceptedWords(rest', isNoun) == words[i + 1..]
    ensures accepted ==> d'.Valid() && d'.entries == d0.entries + PairEntries(Noun, pairs[..i + 1])
    ensures accepted && FreshPairs(d0, Noun, pairs) ==> d'.keys == d0.keys + KeyList(Noun, pairs[..i + 1])
  {
    var noun, used;
    accepted, noun, used := GetUserNoun(rest, isNoun);
    if !accepted {
      return false, d, rest;
    }
    assert words[i..][1..] == words[i + 1..];
    assert pairs[i] == (numbers[i], noun);
    d' := WritePair(d0, d, Noun, pairs, i, numbers[i], noun);
    rest' := rest[used..];
  }

  /**
   * `get_nouns`: one `get_user_noun` per index, in increasing index order,
   * each reading on from where the previous one stopped. It succeeds exactly
   * when the script holds at least one accepted word per index; the k-th
   * index then gets the k-th accepted word.
   */
  method GetNouns(numbers: seq<nat>, script: seq<string>, isNoun: string -> bool, d: Dict)
    returns (ok: bool, d': Dict)
    requires d.Valid()
    ensures ok <==> |AcceptedWords(script, isNoun)| >= |numbers|
    ensures ok ==> d'.Valid() && d'.entries == d.entries + Entries(Noun, numbers, AcceptedWords(script, isNoun))
    ensures ok && Fresh(d, Noun, numbers) ==>
              d'.keys == d.keys + KeyList(Noun, Zip(numbers, AcceptedWords(script, isNoun)))
  {
    ghost var words := AcceptedWords(script, isNoun);
    ghost var pairs := Zip(numbers, words);
    var rest := script;
    d' := d;
    assert words[0..] == words;
    assert pairs[..0] == [] && d.entries + PairEntries(Noun, []) == d.entries;
    for i := 0 to |numbers|
      invariant i <= |words| && AcceptedWords(rest, isNoun) == words[i..]
      invariant d'.Valid() && d'.entries == d.entries + PairEntries(Noun, pairs[..i])
      invariant FreshPairs(d, Noun, pairs) ==> d'.keys == d.keys + KeyList(Noun, pairs[..i])
    {
      var accepted;
      accepted, d', rest := NounStep(d, d', numbers, words, pairs, i, rest, isNoun);
      if !accepted {
        return false, d';
      }
    }
    assert pairs[..|numbers|] == pairs;
    if Fresh(d, Noun, numbers) {
      FreshZip(d, Noun, numbers, words);
    }
    return true, d';
  }

  // ---------------------------------------------------------------------------
  // Verbs and adjectives: get_verbs and get_adjectives
  // ---------------------------------------------------------------------------

  /** `VerbList.verbs` and `AdjectiveList.adjectives` declare `min_length=5, max_length=5`. */
  const BatchSize: nat := 5

  /**
   * The generator's reply as the agent call hands it over: `None` when the
   * call raised, and a list only when it has exactly `BatchSize` items (any
   * other length fails the output schema, which also raises).
   */
  function CheckedBatch(reply: Option<seq<string>>): (r: Option<seq<string>>)
    ensures r.Some? <==> reply.Some? && |reply.value| == BatchSize
    ensures r.Some? ==> r == reply
  {
    if reply.Some? && |reply.value| == BatchSize then reply else None
  }

  /** The words a batch producer zips onto its indices (none when the reply is rejected). */
  function BatchWords(reply: Option<seq<string>>): seq<string> {
    if CheckedBatch(reply).Some? then CheckedBatch(reply).value else []
  }

  /**
   * `get_verbs` / `get_adjectives`: with no index of this kind, no request is
   * made and the dict is untouched, whatever the generator would have said.
   * Otherwise the reply must pass the schema check, and the i-th smallest
   * index gets the i-th word; `zip` silently drops indices beyond the batch.
   */
  method FillBatch(kind: PlaceholderType, numbers: seq<nat>, reply: Option<seq<string>>, d: Dict)
    returns (ok: bool, d': Dict)
    requires d.Valid()
    ensures ok <==> numbers == [] || CheckedBatch(reply).Some?
    ensures numbers == [] ==> d' == d
    ensures ok ==> d'.Valid() && d'.entries == d.entries + Entries(kind, numbers, BatchWords(reply))
    ensures ok && Fresh(d, kind, numbers) ==>
              d'.keys == d.keys + KeyList(kind, Zip(numbers, BatchWords(reply)))
  {
    d' := d;
    if numbers == [] {
      assert Entries(kind, numbers, BatchWords(reply)) == map[];
      return true, d';
    }
    var batch := CheckedBatch(reply);
    if batch.None? {
      return false, d';
    }
    var pairs := Zip(numbers, batch.value);
    assert pairs[..0] == [] && d.entries + PairEntries(kind, []) == d.entries;
    for i := 0 to |pairs|
      invariant d'.Valid() && d'.entries == d.entries + PairEntries(kind, pairs[..i])
      invariant FreshPairs(d, kind, pairs) ==> d'.keys == d.keys + KeyList(kind, pairs[..i])
    {
      d' := WritePair(d, d', kind, pairs, i, pairs[i].0, pairs[i].1);
    }
    assert pairs[..|pairs|] == pairs;
    if Fresh(d, kind, numbers) {
      FreshZip(d, kind, numbers, batch.value);
    }
    return true, d';
  }

  // ---------------------------------------------------------------------------
  // The producers never collide
  // ---------------------------------------------------------------------------

  /** Every key a producer writes carries that producer's kind and the digits `str` produces. */
  lemma EntriesKind(kind: PlaceholderType, numbers: seq<nat>, words: seq<string>)
    ensures forall o | o in Entries(kind, numbers, words) :: o.kind == kind && IsCanonical(o.digits)
  {
    PairEntriesKeys(kind, Zip(numbers, words));
  }

  /** Keys of different kinds never coincide: the producers write disjoint key sets. */
  lemma EntriesDisjoint(k1: PlaceholderType, ns1: seq<nat>, ws1: seq<string>,
                        k2: PlaceholderType, ns2: seq<nat>, ws2: seq<string>)
    requires k1 != k2
    ensures Entries(k1, ns1, ws1).Keys !! Entries(k2, ns2, ws2).Keys
  {
    EntriesKind(k1, ns1, ws1);
    EntriesKind(k2, ns2, ws2);
  }

  /** With distinct indices, a producer adds one entry per zipped pair. */
  lemma EntriesSize(kind: PlaceholderType, numbers: seq<nat>, words: seq<string>)
    requires StrictlyIncreasing(numbers)
    ensures |Entries(kind, numbers, words)| == |Zip(numbers, words)|
  {
    ZipDistinct(numbers, words);
    PairEntriesValues(kind, Zip(numbers, words));
  }
}
