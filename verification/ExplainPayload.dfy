/** What the explain service keeps of a request body, and what it takes from a model response. */
module ExplainPayload {
  import opened Options
  import opened Text

  datatype Json =
    | Null
    | Bool(b: bool)
    | Int(i: int)
    | Float(x: real)
    | Str(s: string)
    | List(items: seq<Json>)
    | Obj(fields: Fields)

  /** The JSON keys the code names, and any other. */
  datatype Key =
    | MetricLabelKey | MetricValueKey | ValueFormatKey | ComparisonLabelKey | ComparisonValueKey
    | DeltaAbsKey | DeltaPctKey | ThresholdLabelKey | TimeRangeKey | TopContributorsKey
    | ExtraContextKey | QueryIdKey | VisualizationIdKey
    | DimensionKey | LabelKey | ValueKey | SharePctKey
    | ContentKey | TypeKey | TextKey
    | OtherKey(name: string)

  type Fields = map<Key, Json>

  datatype PayloadError =
    | NotAnObject
    | LabelRequired
    | ValueRequired
    | NotANumber(key: Key)
    | ContributorsNotAList

  const ALLOWED_KEYS: set<Key> := {
    MetricLabelKey, MetricValueKey, ValueFormatKey, ComparisonLabelKey, ComparisonValueKey, DeltaAbsKey,
    DeltaPctKey, ThresholdLabelKey, TimeRangeKey, TopContributorsKey, ExtraContextKey, QueryIdKey,
    VisualizationIdKey
  }

  const NUMBER_KEYS: seq<Key> := [MetricValueKey, ComparisonValueKey, DeltaAbsKey, DeltaPctKey]

  const TEXT_KEYS: seq<Key> := [
    MetricLabelKey, ComparisonLabelKey, ThresholdLabelKey, TimeRangeKey, ValueFormatKey, ExtraContextKey
  ]

  const CONTRIBUTOR_KEYS: set<Key> := {DimensionKey, LabelKey, ValueKey, SharePctKey}

  const MAX_TEXT := 200
  const MAX_CONTRIBUTORS := 10

  /** Python's float(): `parse` reads a string. */
  function ToFloat(parse: string -> Option<real>, v: Json): Option<real>
  {
    match v
    case Int(i) => Some(i as real)
    case Float(x) => Some(x)
    case Bool(b) => Some(if b then 1.0 else 0.0)
    case Str(s) => parse(s)
    case _ => None
  }

  /** `not str(v).strip()`: only a string can print as blank. */
  predicate BlankLabel(v: Json)
  {
    v.Str? && Strip(v.s) == ""
  }

  /** The entries of a dict with one of the keys and a value other than None. */
  function Kept(fields: Fields, keys: set<Key>): Fields
  {
    map k | k in fields && k in keys && fields[k] != Null :: fields[k]
  }

  function Coerced(parse: string -> Option<real>, fields: Fields, keys: seq<Key>): Result<Fields, PayloadError>
  {
    if keys == [] then Ok(fields) else
    if keys[0] !in fields then Coerced(parse, fields, keys[1..]) else
    match ToFloat(parse, fields[keys[0]])
    case None => Err(NotANumber(keys[0]))
    case Some(x) => Coerced(parse, fields[keys[0] := Float(x)], keys[1..])
  }

  function Cleaned(items: seq<Json>): seq<Json>
  {
    if items == [] then [] else
    var last := items[|items| - 1];
    Cleaned(items[..|items| - 1]) +
    (if last.Obj? && Kept(last.fields, CONTRIBUTOR_KEYS) != map[]
     then [Obj(Kept(last.fields, CONTRIBUTOR_KEYS))] else [])
  }

  function FirstTen(items: seq<Json>): seq<Json>
  {
    if |items| <= MAX_CONTRIBUTORS then items else items[..MAX_CONTRIBUTORS]
  }

  function Shortened(v: Json): Json
  {
    if v.Str? && |v.s| > MAX_TEXT then Str(v.s[..MAX_TEXT]) else v
  }

  function WithContributors(fields: Fields): Result<Fields, PayloadError>
  {
    if TopContributorsKey !in fields then Ok(fields) else
    if !fields[TopContributorsKey].List? then Err(ContributorsNotAList)
    else Ok(fields[TopContributorsKey := List(Cleaned(FirstTen(fields[TopContributorsKey].items)))])
  }

  function WithShortText(fields: Fields): Fields
  {
    map k | k in fields :: if k in TEXT_KEYS then Shortened(fields[k]) else fields[k]
  }

  function Normalise(parse: string -> Option<real>, raw: Json): Result<Fields, PayloadError>
  {
    if !raw.Obj? then Err(NotAnObject) else
    var kept := Kept(raw.fields, ALLOWED_KEYS);
    if MetricLabelKey !in kept || BlankLabel(kept[MetricLabelKey]) then Err(LabelRequired) else
    if MetricValueKey !in kept then Err(ValueRequired) else
    match Coerced(parse, kept, NUMBER_KEYS)
    case Err(e) => Err(e)
    case Ok(numbers) =>
      match WithContributors(numbers)
      case Err(e) => Err(e)
      case Ok(bounded) => Ok(WithShortText(bounded))
  }

  /** The entries with an allowed key and a value. */
  method KeepAllowed(fields: Fields) returns (out: Fields)
    ensures out == Kept(fields, ALLOWED_KEYS)
  {
    out := map[];
    var todo := ALLOWED_KEYS;
    while todo != {}
      invariant todo <= ALLOWED_KEYS
      invariant out == Kept(fields, ALLOWED_KEYS - todo)
      decreases todo
    {
      var key :| key in todo;
      assert ALLOWED_KEYS - (todo - {key}) == (ALLOWED_KEYS - todo) + {key};
      if key in fields && fields[key] != Null {
        out := out[key := fields[key]];
      }
      todo := todo - {key};
    }
    assert ALLOWED_KEYS - {} == ALLOWED_KEYS;
  }

  method CoerceNumbers(parse: string -> Option<real>, fields: Fields) returns (r: Result<Fields, PayloadError>)
    ensures r == Coerced(parse, fields, NUMBER_KEYS)
  {
    var out := fields;
    for i := 0 to |NUMBER_KEYS|
      invariant Coerced(parse, out, NUMBER_KEYS[i..]) == Coerced(parse, fields, NUMBER_KEYS)
    {
      var key := NUMBER_KEYS[i];
      assert NUMBER_KEYS[i..] == [key] + NUMBER_KEYS[i + 1..];
      if key in out {
        match ToFloat(parse, out[key]) {
          case None => return Err(NotANumber(key));
          case Some(x) => out := out[key := Float(x)];
        }
      }
    }
    return Ok(out);
  }

  method ShortenTexts(fields: Fields) returns (out: Fields)
    ensures out == WithShortText(fields)
  {
    out := fields;
    for i := 0 to |TEXT_KEYS|
      invariant out.Keys == fields.Keys
      invariant forall k :: k in out ==> out[k] == if k in TEXT_KEYS[..i] then Shortened(fields[k]) else fields[k]
    {
      var key := TEXT_KEYS[i];
      assert TEXT_KEYS[..i + 1] == TEXT_KEYS[..i] + [key];
      if key in out && out[key].Str? {
        out := out[key := Shortened(out[key])];
      }
    }
    assert TEXT_KEYS[..|TEXT_KEYS|] == TEXT_KEYS;
  }

  /** normalise_payload */
  method NormalisePayload(parse: string -> Option<real>, raw: Json) returns (r: Result<Fields, PayloadError>)
    ensures r == Normalise(parse, raw)
  {
    hide Kept, Coerced, WithShortText, Cleaned;
    if !raw.Obj? { return Err(NotAnObject); }
    var out := KeepAllowed(raw.fields);
    if MetricLabelKey !in out || BlankLabel(out[MetricLabelKey]) { return Err(LabelRequired); }
    if MetricValueKey !in out { return Err(ValueRequired); }
    var numbers := CoerceNumbers(parse, out);
    if numbers.Err? { return Err(numbers.error); }
    out := numbers.value;
    if TopContributorsKey in out {
      if !out[TopContributorsKey].List? { return Err(ContributorsNotAList); }
      var cleaned := CleanContributors(FirstTen(out[TopContributorsKey].items));
      out := out[TopContributorsKey := List(cleaned)];
    }
    out := ShortenTexts(out);
    return Ok(out);
  }

  method CleanContributors(items: seq<Json>) returns (cleaned: seq<Json>)
    ensures cleaned == Cleaned(items)
  {
    cleaned := [];
    for i := 0 to |items|
      invariant cleaned == Cleaned(items[..i])
    {
      assert items[..i + 1][..i] == items[..i];
      if items[i].Obj? {
        var entry := Kept(items[i].fields, CONTRIBUTOR_KEYS);
        if entry != map[] {
          cleaned := cleaned + [Obj(entry)];
        }
      }
    }
    assert items[..|items|] == items;
  }

  /** Python's truth value. */
  predicate Falsy(v: Json)
  {
    match v
    case Null => true
    case Bool(b) => !b
    case Int(i) => i == 0
    case Float(x) => x == 0.0
    case Str(s) => s == ""
    case List(items) => items == []
    case Obj(fields) => fields == map[]
  }

  /** `request.get_json() or {}` */
  function BodyOf(raw: Json): Json
  {
    if Falsy(raw) then Obj(map[]) else raw
  }

  /** A false body of any kind lacks its label; only a true one can fail to be an object. */
  lemma BodyErrors(parse: string -> Option<real>, raw: Json)
    ensures raw in {Null, Bool(false), Int(0), Float(0.0), Str(""), List([]), Obj(map[])} ==>
              Normalise(parse, BodyOf(raw)) == Err(LabelRequired)
    ensures Normalise(parse, BodyOf(raw)) == Err(NotAnObject) <==>
            raw == Bool(true) || (raw.Int? && raw.i != 0) || (raw.Float? && raw.x != 0.0) ||
            (raw.Str? && raw.s != "") || (raw.List? && raw.items != [])
  {
    if raw.Obj? && !Falsy(raw) {
      ObjectIsObject(parse, Kept(raw.fields, ALLOWED_KEYS), NUMBER_KEYS);
    }
  }

  lemma {:induction false} ObjectIsObject(parse: string -> Option<real>, fields: Fields, keys: seq<Key>)
    ensures Coerced(parse, fields, keys) != Err(NotAnObject)
  {
    if keys != [] {
      if keys[0] in fields && ToFloat(parse, fields[keys[0]]).Some? {
        ObjectIsObject(parse, fields[keys[0] := Float(ToFloat(parse, fields[keys[0]]).value)], keys[1..]);
      } else if keys[0] !in fields {
        ObjectIsObject(parse, fields, keys[1..]);
      }
    }
  }

  // ---- what a normalised payload looks like ----

  ghost predicate CleanContributor(v: Json)
  {
    v.Obj? && v.fields != map[] && v.fields.Keys <= CONTRIBUTOR_KEYS && Null !in v.fields.Values
  }

  ghost predicate Whitelisted(p: Fields)
  {
    p.Keys <= ALLOWED_KEYS && Null !in p.Values && MetricLabelKey in p && MetricValueKey in p
  }

  ghost predicate NumbersOk(p: Fields)
  {
    forall k :: k in NUMBER_KEYS && k in p ==> p[k].Float?
  }

  ghost predicate TextOk(p: Fields)
  {
    forall k :: k in TEXT_KEYS && k in p && p[k].Str? ==> |p[k].s| <= MAX_TEXT
  }

  ghost predicate ContributorsOk(p: Fields)
  {
    TopContributorsKey in p ==>
      && p[TopContributorsKey].List?
      && |p[TopContributorsKey].items| <= MAX_CONTRIBUTORS
      && forall v :: v in p[TopContributorsKey].items ==> CleanContributor(v)
  }

  ghost predicate Normalised(p: Fields)
  {
    Whitelisted(p) && NumbersOk(p) && TextOk(p) && ContributorsOk(p)
  }

  lemma {:induction false} CoercedFields(parse: string -> Option<real>, fields: Fields, keys: seq<Key>)
    requires Coerced(parse, fields, keys).Ok?
    ensures var out := Coerced(parse, fields, keys).value;
            out.Keys == fields.Keys &&
            forall k :: k in out ==>
              (k !in keys && out[k] == fields[k]) || (k in keys && (out[k].Float? || out[k] == fields[k]))
    ensures var out := Coerced(parse, fields, keys).value; forall k :: k in keys && k in out ==> out[k].Float?
  {
    if keys != [] {
      assert keys == [keys[0]] + keys[1..];
      if keys[0] in fields {
        CoercedFields(parse, fields[keys[0] := Float(ToFloat(parse, fields[keys[0]]).value)], keys[1..]);
      } else {
        CoercedFields(parse, fields, keys[1..]);
      }
    }
  }

  lemma {:induction false} CleanedShape(items: seq<Json>)
    ensures |Cleaned(items)| <= |items|
    ensures forall v :: v in Cleaned(items) ==> CleanContributor(v)
  {
    if items != [] {
      CleanedShape(items[..|items| - 1]);
    }
  }

  lemma ContributorsShape(fields: Fields)
    requires Whitelisted(fields) && NumbersOk(fields) && WithContributors(fields).Ok?
    ensures var p := WithContributors(fields).value; Whitelisted(p) && NumbersOk(p) && ContributorsOk(p)
  {
    if TopContributorsKey in fields {
      CleanedShape(FirstTen(fields[TopContributorsKey].items));
      assert TopContributorsKey !in NUMBER_KEYS;
    }
  }

  lemma ShortTextShape(fields: Fields)
    requires Whitelisted(fields) && NumbersOk(fields) && ContributorsOk(fields)
    ensures Normalised(WithShortText(fields))
  {
    var p := WithShortText(fields);
    assert p.Keys == fields.Keys;
    assert forall k :: k in NUMBER_KEYS ==> k !in TEXT_KEYS;
    assert TopContributorsKey !in TEXT_KEYS;
  }

  /** Whatever a client sends, an accepted payload has the whitelisted keys only, numbers where numbers
      belong, no null, no long text and at most ten clean contributors. */
  lemma NormaliseShape(parse: string -> Option<real>, raw: Json)
    requires Normalise(parse, raw).Ok?
    ensures Normalised(Normalise(parse, raw).value)
  {
    var kept := Kept(raw.fields, ALLOWED_KEYS);
    CoercedFields(parse, kept, NUMBER_KEYS);
    var numbers := Coerced(parse, kept, NUMBER_KEYS).value;
    assert Whitelisted(numbers) by {
      assert numbers.Keys == kept.Keys;
    }
    ContributorsShape(numbers);
    ShortTextShape(WithContributors(numbers).value);
  }

  lemma {:induction false} CleanedFixed(items: seq<Json>)
    requires forall v :: v in items ==> CleanContributor(v)
    ensures Cleaned(items) == items
  {
    if items != [] {
      var front, last := items[..|items| - 1], items[|items| - 1];
      assert CleanContributor(last);
      assert Kept(last.fields, CONTRIBUTOR_KEYS) == last.fields;
      assert Cleaned(items) == Cleaned(front) + [last];
      hide *;
      CleanedFixed(front);
      assert items == front + [last];
    }
  }

  lemma {:induction false} CoercedFixed(parse: string -> Option<real>, fields: Fields, keys: seq<Key>)
    requires forall k :: k in keys && k in fields ==> fields[k].Float?
    ensures Coerced(parse, fields, keys) == Ok(fields)
  {
    if keys != [] {
      if keys[0] in fields {
        assert fields[keys[0] := fields[keys[0]]] == fields;
      }
      CoercedFixed(parse, fields, keys[1..]);
    }
  }

  lemma NormaliseAgain(parse: string -> Option<real>, raw: Json)
    requires Normalise(parse, raw).Ok?
    ensures MetricLabelKey in Normalise(parse, raw).value
    ensures var p := Normalise(parse, raw).value;
            Normalise(parse, Obj(p)) == if BlankLabel(p[MetricLabelKey]) then Err(LabelRequired) else Ok(p)
  {
    NormaliseShape(parse, raw);
    var p := Normalise(parse, raw).value;
    assert Kept(p, ALLOWED_KEYS) == p;
    CoercedFixed(parse, p, NUMBER_KEYS);
    if TopContributorsKey in p {
      CleanedFixed(p[TopContributorsKey].items);
      assert p[TopContributorsKey := p[TopContributorsKey]] == p;
    }
    assert WithShortText(p) == p;
  }

  /** The kept label is the label of the body, shortened. */
  lemma KeptLabel(parse: string -> Option<real>, raw: Json)
    requires Normalise(parse, raw).Ok?
    ensures raw.Obj? && MetricLabelKey in raw.fields && !BlankLabel(raw.fields[MetricLabelKey])
    ensures var p := Normalise(parse, raw).value;
            MetricLabelKey in p && p[MetricLabelKey] == Shortened(raw.fields[MetricLabelKey])
  {
    var kept := Kept(raw.fields, ALLOWED_KEYS);
    CoercedFields(parse, kept, NUMBER_KEYS);
    assert MetricLabelKey !in NUMBER_KEYS;
  }

  /** The code checks the label before it truncates it, so that a payload it has accepted is refused when it is
      normalised again, exactly when the label is a text of more than MAX_TEXT characters of which the first
      MAX_TEXT are blank; otherwise normalising again changes nothing. */
  lemma NormaliseTwice(parse: string -> Option<real>, raw: Json)
    requires Normalise(parse, raw).Ok?
    ensures raw.Obj? && MetricLabelKey in raw.fields
    ensures var p, given := Normalise(parse, raw).value, raw.fields[MetricLabelKey];
            Normalise(parse, Obj(p)) ==
            if given.Str? && |given.s| > MAX_TEXT && Blank(given.s[..MAX_TEXT]) then Err(LabelRequired) else Ok(p)
  {
    NormaliseAgain(parse, raw);
    KeptLabel(parse, raw);
    var given := raw.fields[MetricLabelKey];
    hide Normalise, Strip;
    if given.Str? {
      StripEnds(given.s);
      if |given.s| > MAX_TEXT {
        StripEnds(given.s[..MAX_TEXT]);
      }
    }
  }

  /** Two hundred spaces and an x. */
  function LateLabel(): (s: string)
    ensures |s| == MAX_TEXT + 1 && Blank(s[..MAX_TEXT]) && s[MAX_TEXT] == 'x'
  {
    seq(MAX_TEXT, _ => ' ') + "x"
  }

  /** A body that is accepted once and refused the second time. */
  lemma AcceptedOnce(parse: string -> Option<real>)
    ensures var first := Normalise(parse, Obj(map[MetricLabelKey := Str(LateLabel()), MetricValueKey := Int(1)]));
            first.Ok? && Normalise(parse, Obj(first.value)) == Err(LabelRequired)
  {
    var fields := map[MetricLabelKey := Str(LateLabel()), MetricValueKey := Int(1)];
    var numbers := fields[MetricValueKey := Float(1.0)];
    StripEnds(LateLabel());
    assert Kept(fields, ALLOWED_KEYS) == fields;
    assert Coerced(parse, fields, NUMBER_KEYS) == Coerced(parse, numbers, NUMBER_KEYS[1..]);
    CoercedFixed(parse, numbers, NUMBER_KEYS[1..]);
    NormaliseTwice(parse, Obj(fields));
  }

  // ---- the text of a model response ----

  datatype ResponseError = ResponseNotAnObject | ContentNotAList | NoText

  /** `response_body.get("content") or []` */
  function Content(body: Fields): Json
  {
    if ContentKey !in body || Falsy(body[ContentKey]) then List([]) else body[ContentKey]
  }

  predicate IsTextBlock(v: Json)
  {
    && v.Obj? && TypeKey in v.fields && v.fields[TypeKey] == Str("text")
    && TextKey in v.fields && v.fields[TextKey].Str?
  }

  function Texts(blocks: seq<Json>): seq<string>
  {
    if blocks == [] then [] else
    var last := blocks[|blocks| - 1];
    Texts(blocks[..|blocks| - 1]) + (if IsTextBlock(last) then [last.fields[TextKey].s] else [])
  }

  function ResponseText(body: Json): Result<string, ResponseError>
  {
    if !body.Obj? then Err(ResponseNotAnObject) else
    if !Content(body.fields).List? then Err(ContentNotAList) else
    var out := Strip(Lines(Texts(Content(body.fields).items)));
    if out == "" then Err(NoText) else Ok(out)
  }

  method ExtractText(body: Json) returns (r: Result<string, ResponseError>)
    ensures r == ResponseText(body)
  {
    if !body.Obj? { return Err(ResponseNotAnObject); }
    var content := Content(body.fields);
    if !content.List? { return Err(ContentNotAList); }
    var blocks := content.items;
    var pieces: seq<string> := [];
    for i := 0 to |blocks|
      invariant pieces == Texts(blocks[..i])
    {
      assert blocks[..i + 1][..i] == blocks[..i];
      if IsTextBlock(blocks[i]) {
        pieces := pieces + [blocks[i].fields[TextKey].s];
      }
    }
    assert blocks[..|blocks|] == blocks;
    var out := Strip(Lines(pieces));
    return if out == "" then Err(NoText) else Ok(out);
  }

  lemma {:induction false} TextsOfBlocks(blocks: seq<Json>)
    ensures (forall t :: t in Texts(blocks) ==> Blank(t)) <==>
            (forall b :: b in blocks && IsTextBlock(b) ==> Blank(b.fields[TextKey].s))
  {
    if blocks != [] {
      var front, last := blocks[..|blocks| - 1], blocks[|blocks| - 1];
      TextsOfBlocks(front);
      assert blocks == front + [last];
      if IsTextBlock(last) {
        assert Texts(blocks) == Texts(front) + [last.fields[TextKey].s];
      }
    }
  }

  /** A response yields text exactly when one of its text blocks is not blank, and what it yields is never
      empty: the handler's truthiness test on a cached answer relies on it. */
  lemma TextWhenNotBlank(body: Json)
    requires body.Obj? && Content(body.fields).List?
    ensures ResponseText(body).Ok? <==>
            exists b :: b in Content(body.fields).items && IsTextBlock(b) && !Blank(b.fields[TextKey].s)
    ensures ResponseText(body).Ok? ==>
              ResponseText(body).value != "" && !IsSpace(ResponseText(body).value[0])
  {
    var texts := Texts(Content(body.fields).items);
    StripEnds(Lines(texts));
    LinesBlank(texts);
    TextsOfBlocks(Content(body.fields).items);
  }
}
