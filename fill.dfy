/**
 * `fill_madlib_template` end to end: find the markers, collect the sorted
 * distinct indices of each kind, run the three producers on one dict, then
 * substitute and rebuild. Everything outside the program (the user's input
 * lines, the noun validator's verdicts, the two generators' replies and the
 * clock) is passed in as `Inputs` and a timestamp.
 */
module Fill {
  import opened Text
  import opened Models
  import opened Scanner
  import opened Grouping
  import opened Producers
  import opened Reassembly

  /** Why a fill raises instead of returning a completed madlib. */
  datatype FillError =
    | NounInputExhausted          // `input()` ran out before every noun index got an accepted word
    | VerbGenerationFailed        // the verb generator failed or broke its five-item schema
    | AdjectiveGenerationFailed   // the adjective generator failed or broke its five-item schema

  /**
   * The outside world of one fill: the lines the user would type, the noun
   * validator, and the replies the verb and adjective generators would give
   * (`None` when the call raises).
   */
  datatype Inputs = Inputs(
    script: seq<string>,
    isNoun: string -> bool,
    verbReply: Option<seq<string>>,
    adjectiveReply: Option<seq<string>>)

  // ---------------------------------------------------------------------------
  // What a fill computes
  // ---------------------------------------------------------------------------

  /** `sorted(set(int(num) for ...))` for one kind. */
  function Indices(text: string, kind: PlaceholderType): seq<nat> {
    Numbers(Scan(text), kind)
  }

  /** The reply of the generator for a batch kind. */
  function Reply(inp: Inputs, kind: PlaceholderType): Option<seq<string>> {
    if kind == Verb then inp.verbReply else inp.adjectiveReply
  }

  /** The words a producer has for its indices. */
  function Words(inp: Inputs, kind: PlaceholderType): seq<string> {
    if kind == Noun then AcceptedWords(inp.script, inp.isNoun) else BatchWords(Reply(inp, kind))
  }

  /** The entries one producer writes. */
  function Produced(text: string, inp: Inputs, kind: PlaceholderType): map<Occurrence, string> {
    Entries(kind, Indices(text, kind), Words(inp, kind))
  }

  /** The keys one producer writes, in the order it writes them. */
  function StageKeys(text: string, inp: Inputs, kind: PlaceholderType): seq<Occurrence> {
    KeyList(kind, Zip(Indices(text, kind), Words(inp, kind)))
  }

  /** The dict's keys in insertion order: the nouns', then the verbs', then the adjectives'. */
  function FilledKeys(text: string, inp: Inputs): seq<Occurrence> {
    StageKeys(text, inp, Noun) + StageKeys(text, inp, Verb) + StageKeys(text, inp, Adjective)
  }

  /** The dict's contents once the three producers are done. */
  function FilledMap(text: string, inp: Inputs): map<Occurrence, string> {
    Produced(text, inp, Noun) + Produced(text, inp, Verb) + Produced(text, inp, Adjective)
  }

  /** The first producer, in the order noun, verb, adjective, that raises. */
  function Failure(text: string, inp: Inputs): (r: Option<FillError>)
    ensures r.None? <==>
              |Indices(text, Noun)| <= |AcceptedWords(inp.script, inp.isNoun)|
              && (Indices(text, Verb) == [] || (inp.verbReply.Some? && |inp.verbReply.value| == BatchSize))
              && (Indices(text, Adjective) == [] || (inp.adjectiveReply.Some? && |inp.adjectiveReply.value| == BatchSize))
    ensures r == Some(VerbGenerationFailed) ==> |Indices(text, Noun)| <= |AcceptedWords(inp.script, inp.isNoun)|
    ensures r == Some(AdjectiveGenerationFailed) ==>
              |Indices(text, Noun)| <= |AcceptedWords(inp.script, inp.isNoun)|
              && (Indices(text, Verb) == [] || CheckedBatch(inp.verbReply).Some?)
  {
    if |Words(inp, Noun)| < |Indices(text, Noun)| then Some(NounInputExhausted)
    else if Indices(text, Verb) != [] && CheckedBatch(Reply(inp, Verb)).None? then Some(VerbGenerationFailed)
    else if Indices(text, Adjective) != [] && CheckedBatch(Reply(inp, Adjective)).None? then Some(AdjectiveGenerationFailed)
    else None
  }

  /** The rebuilt records, one per match. */
  function Records(occs: seq<Occurrence>, entries: map<Occurrence, string>): seq<Placeholder> {
    seq(|occs|, i requires 0 <= i < |occs| => RecordFor(i + 1, occs[i], entries))
  }

  // ---------------------------------------------------------------------------
  // Facts about the producers' combined output
  // ---------------------------------------------------------------------------

  /** The keys one producer writes: its kind, canonical digits, and exactly its key list. */
  lemma ProducedShape(text: string, inp: Inputs, kind: PlaceholderType)
    ensures forall o | o in Produced(text, inp, kind) :: o.kind == kind && IsCanonical(o.digits)
    ensures forall o :: o in Produced(text, inp, kind) <==> o in StageKeys(text, inp, kind)
  {
    EntriesKind(kind, Indices(text, kind), Words(inp, kind));
    PairEntriesKeys(kind, Zip(Indices(text, kind), Words(inp, kind)));
  }

  /** Every key in the filled dict is a well-formed marker with canonical digits, listed in the key order. */
  lemma FilledKeysShape(text: string, inp: Inputs)
    ensures forall o | o in FilledMap(text, inp) :: WellFormed(o) && IsCanonical(o.digits)
    ensures forall o :: o in FilledMap(text, inp) <==> o in FilledKeys(text, inp)
    ensures Substitutable(FilledKeys(text, inp), FilledMap(text, inp))
  {
    ProducedShape(text, inp, Noun);
    ProducedShape(text, inp, Verb);
    ProducedShape(text, inp, Adjective);
  }

  /** A producer's keys are new to a dict holding only keys of other kinds. */
  lemma FreshForKind(d: Dict, kind: PlaceholderType, numbers: seq<nat>)
    requires StrictlyIncreasing(numbers)
    requires forall o | o in d.entries :: o.kind != kind
    ensures Fresh(d, kind, numbers)
  {
  }

  /** The text after the substitution loop has run over the filled dict. */
  function FilledText(text: string, inp: Inputs): string {
    FilledKeysShape(text, inp);
    SubstituteAll(text, FilledKeys(text, inp), FilledMap(text, inp))
  }

  // ---------------------------------------------------------------------------
  // fill_madlib_template
  // ---------------------------------------------------------------------------

  /** `get_nouns` run on a fresh dict for the template's noun indices. */
  method NounStage(text: string, inp: Inputs) returns (ok: bool, d: Dict)
    ensures ok <==> |Indices(text, Noun)| <= |Words(inp, Noun)|
    ensures ok ==> d.Valid() && d.entries == Produced(text, inp, Noun) && d.keys == StageKeys(text, inp, Noun)
  {
    var numbers := Indices(text, Noun);
    ok, d := GetNouns(numbers, inp.script, inp.isNoun, EmptyDict);
    assert map[] + Produced(text, inp, Noun) == Produced(text, inp, Noun);
    assert [] + StageKeys(text, inp, Noun) == StageKeys(text, inp, Noun);
  }

  /** `get_verbs` or `get_adjectives` run on the dict the earlier producers left. */
  method BatchStage(text: string, inp: Inputs, kind: PlaceholderType, d: Dict) returns (ok: bool, d': Dict)
    requires kind != Noun && d.Valid()
    requires forall o | o in d.entries :: o.kind != kind
    ensures ok <==> Indices(text, kind) == [] || CheckedBatch(Reply(inp, kind)).Some?
    ensures ok ==> d'.Valid() && d'.entries == d.entries + Produced(text, inp, kind)
    ensures ok ==> d'.keys == d.keys + StageKeys(text, inp, kind)
  {
    var numbers := Indices(text, kind);
    var reply := Reply(inp, kind);
    FreshForKind(d, kind, numbers);
    ok, d' := FillBatch(kind, numbers, reply, d);
  }

  /**
   * The three producers in the order noun, verb, adjective on one dict: the
   * first failure is the fill's error, and otherwise the dict holds exactly
   * the filled entries, keyed in insertion order.
   */
  method RunProducers(text: string, inp: Inputs) returns (failure: Option<FillError>, d: Dict)
    ensures failure == Failure(text, inp)
    ensures failure.None? ==> d.Valid() && d.entries == FilledMap(text, inp) && d.keys == FilledKeys(text, inp)
  {
    var ok;
    ok, d := NounStage(text, inp);
    if !ok {
      return Some(NounInputExhausted), d;
    }
    ProducedShape(text, inp, Noun);
    ok, d := BatchStage(text, inp, Verb, d);
    if !ok {
      return Some(VerbGenerationFailed), d;
    }
    ProducedShape(text, inp, Verb);
    ok, d := BatchStage(text, inp, Adjective, d);
    if !ok {
      return Some(AdjectiveGenerationFailed), d;
    }
    failure := None;
  }

  /** The substitution loop and the rebuild of the records over a finished dict. */
  method Reassemble(text: string, d: Dict) returns (filled: string, records: seq<Placeholder>)
    requires d.Valid() && forall k | k in d.entries :: WellFormed(k)
    ensures filled == SubstituteAll(text, d.keys, d.entries)
    ensures records == Records(Scan(text), d.entries)
  {
    filled := Substitute(text, d);
    var occs := Scan(text);
    records := Rebuild(occs, d.entries);
    assert records == Records(occs, d.entries);
  }

  /**
   * The fill: it raises exactly when `Failure` says so, and otherwise returns
   * the template's topic, text and creation time, the substituted text, one
   * record per match, and the completion time.
   */
  method FillMadlibTemplate(template: MadlibTemplate, inp: Inputs, now: Timestamp)
    returns (r: Result<CompletedMadlib, FillError>)
    ensures r.Err? <==> Failure(template.templateText, inp).Some?
    ensures r.Err? ==> r.error == Failure(template.templateText, inp).value
    ensures r.Ok? ==> r.value == CompletedMadlib(
                        template.topic,
                        template.templateText,
                        FilledText(template.templateText, inp),
                        Records(Scan(template.templateText), FilledMap(template.templateText, inp)),
                        template.createdAt,
                        now)
  {
    var text := template.templateText;
    var failure, d := RunProducers(text, inp);
    if failure.Some? {
      return Err(failure.value);
    }
    FilledKeysShape(text, inp);
    var filled, records := Reassemble(text, d);
    return Ok(CompletedMadlib(template.topic, text, filled, records, template.createdAt, now));
  }
}
