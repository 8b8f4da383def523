/**
 * The records of madlibs/main.py (`PlaceholderType`, `Placeholder`,
 * `MadlibTemplate`, `CompletedMadlib`) and the textual form of a slot marker,
 * `{noun_N}`, `{verb_N}` or `{adjective_N}`.
 */
module Models {
  import opened Text

  datatype Option<+T> = None | Some(value: T)

  datatype Result<+T, +E> = Ok(value: T) | Err(error: E)

  /** `PlaceholderType`: the closed set of slot kinds. */
  datatype PlaceholderType = Noun | Verb | Adjective

  /** The enum's string value, which is also the kind's spelling inside a marker. */
  function Tag(kind: PlaceholderType): string {
    match kind
    case Noun => "noun"
    case Verb => "verb"
    case Adjective => "adjective"
  }

  /** Timestamps are opaque instants supplied by the caller (`datetime.now()` is not modelled). */
  type Timestamp = nat

  /** `Placeholder`; the source's field `type` is called `kind` here. */
  datatype Placeholder = Placeholder(id: int, kind: PlaceholderType, filledValue: Option<string>)

  datatype MadlibTemplate = MadlibTemplate(
    topic: string,
    templateText: string,
    placeholders: seq<Placeholder>,
    createdAt: Timestamp)

  datatype CompletedMadlib = CompletedMadlib(
    topic: string,
    templateText: string,
    filledText: string,
    placeholders: seq<Placeholder>,
    createdAt: Timestamp,
    completedAt: Timestamp)

  /** One match of the marker pattern: its kind group and its raw digit group. */
  datatype Occurrence = Occurrence(kind: PlaceholderType, digits: string)

  predicate WellFormed(o: Occurrence) {
    IsDigits(o.digits)
  }

  /** No character of `s` is an opening brace. */
  predicate NoOpenBrace(s: string) {
    forall i | 0 <= i < |s| :: s[i] != '{'
  }

  /** The part of a marker before its digits, `{noun_`, `{verb_` or `{adjective_`. */
  function Prefix(kind: PlaceholderType): string {
    "{" + Tag(kind) + "_"
  }

  /** The text of a marker, `{kind_digits}`: the key the rebuild step looks up. */
  function Marker(o: Occurrence): string
    requires WellFormed(o)
  {
    Prefix(o.kind) + o.digits + "}"
  }

  /** A marker opens with the only `{` it contains and closes with `}`. */
  lemma MarkerShape(o: Occurrence)
    requires WellFormed(o)
    ensures |Marker(o)| >= 4 && Marker(o)[0] == '{' && Marker(o)[|Marker(o)| - 1] == '}'
    ensures NoOpenBrace(Marker(o)[1..])
  {
    var p := Prefix(o.kind);
    assert NoOpenBrace(p[1..]);
    assert Marker(o)[1..] == p[1..] + o.digits + "}";
  }

  /**
   * The key a producer writes for index `n`, `f"{{noun_{num}}}"` with `num` an
   * int, in parsed form: the key's text is `Marker(Key(kind, n))`, whose digits
   * are `str(n)`.
   */
  function Key(kind: PlaceholderType, n: nat): (o: Occurrence)
    ensures WellFormed(o) && o.kind == kind && IsCanonical(o.digits)
  {
    Occurrence(kind, NatStr(n))
  }
}
