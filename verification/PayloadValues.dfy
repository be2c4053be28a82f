/** What a normalised payload holds, member by member, and which body is refused for what. */
module PayloadValues {
  import opened Options
  import opened Text
  import opened Sequences
  import opened ExplainPayload

  ghost predicate Given(fields: Fields, k: Key)
  {
    k in fields && fields[k] != Null
  }

  /** float(v) is x. */
  ghost predicate ReadsAs(parse: string -> Option<real>, v: Json, x: real)
  {
    match v
    case Int(i) => x == i as real
    case Float(y) => x == y
    case Bool(b) => x == if b then 1.0 else 0.0
    case Str(s) => parse(s) == Some(x)
    case _ => false
  }

  ghost predicate Readable(parse: string -> Option<real>, v: Json)
  {
    exists x :: ReadsAs(parse, v, x)
  }

  /** The number members, in the order in which they are read. */
  const NUMBERS: seq<Key> := [MetricValueKey, ComparisonValueKey, DeltaAbsKey, DeltaPctKey]

  /** A given number member that is no number. */
  ghost predicate Unreadable(parse: string -> Option<real>, fields: Fields, k: Key)
  {
    Given(fields, k) && !Readable(parse, fields[k])
  }

  ghost predicate LabelGiven(fields: Fields)
  {
    Given(fields, MetricLabelKey) && !(fields[MetricLabelKey].Str? && Blank(fields[MetricLabelKey].s))
  }

  ghost predicate FirstUnreadable(parse: string -> Option<real>, fields: Fields, k: Key)
  {
    exists i :: 0 <= i < 4 && NUMBERS[i] == k && Unreadable(parse, fields, k) &&
                forall j :: 0 <= j < i ==> !Unreadable(parse, fields, NUMBERS[j])
  }

  ghost predicate NoneUnreadable(parse: string -> Option<real>, fields: Fields)
  {
    forall i :: 0 <= i < 4 ==> !Unreadable(parse, fields, NUMBERS[i])
  }

  /** The contributor's four members that are given, with their values. */
  ghost predicate PartOf(v: Json, item: Json)
  {
    v.Obj? && item.Obj? &&
    (forall k :: k in v.fields <==>
       Given(item.fields, k) && (k == DimensionKey || k == LabelKey || k == ValueKey || k == SharePctKey)) &&
    forall k :: k in v.fields ==> v.fields[k] == item.fields[k]
  }

  ghost predicate HasPart(item: Json)
  {
    item.Obj? && (Given(item.fields, DimensionKey) || Given(item.fields, LabelKey) || Given(item.fields, ValueKey) ||
                  Given(item.fields, SharePctKey))
  }

  ghost function PartAt(items: seq<Json>): nat -> bool
  {
    (i: nat) => i < |items| && HasPart(items[i])
  }

  ghost predicate PartsAt(parts: seq<Json>, items: seq<Json>, at: seq<nat>)
  {
    |parts| == |at| && forall j :: 0 <= j < |at| ==> at[j] < |items| && PartOf(parts[j], items[at[j]])
  }

  /** The value kept for a member. */
  ghost predicate KeptAs(parse: string -> Option<real>, k: Key, given: Json, kept: Json)
  {
    match k
    case MetricValueKey | ComparisonValueKey | DeltaAbsKey | DeltaPctKey =>
      kept.Float? && ReadsAs(parse, given, kept.x)
    case MetricLabelKey | ComparisonLabelKey | ThresholdLabelKey | TimeRangeKey | ValueFormatKey | ExtraContextKey =>
      kept == if given.Str? && |given.s| > 200 then Str(given.s[..200]) else given
    case TopContributorsKey =>
      given.List? && kept.List? &&
      var firstTen := if |given.items| > 10 then given.items[..10] else given.items;
      PartsAt(kept.items, firstTen, Where(|firstTen|, PartAt(firstTen)))
    case _ => kept == given
  }

  predicate Known(k: Key)
  {
    match k
    case MetricLabelKey | MetricValueKey | ValueFormatKey | ComparisonLabelKey | ComparisonValueKey | DeltaAbsKey
       | DeltaPctKey | ThresholdLabelKey | TimeRangeKey | TopContributorsKey | ExtraContextKey | QueryIdKey
       | VisualizationIdKey => true
    case _ => false
  }

  // ---- the parts ----

  lemma KeptIs(fields: Fields)
    ensures forall k :: k in Kept(fields, ALLOWED_KEYS) <==> Known(k) && Given(fields, k)
    ensures forall k :: k in Kept(fields, ALLOWED_KEYS) ==> Kept(fields, ALLOWED_KEYS)[k] == fields[k]
  {
  }

  lemma ToFloatReads(parse: string -> Option<real>, v: Json)
    ensures ToFloat(parse, v).Some? <==> Readable(parse, v)
    ensures ToFloat(parse, v).Some? ==> ReadsAs(parse, v, ToFloat(parse, v).value)
  {
    if ToFloat(parse, v).Some? {
      assert ReadsAs(parse, v, ToFloat(parse, v).value);
    }
  }

  lemma {:induction false} CoercedIs(parse: string -> Option<real>, fields: Fields, keys: seq<Key>)
    requires Distinct(keys)
    ensures match Coerced(parse, fields, keys)
            case Ok(out) =>
              (forall k :: k in keys && k in fields ==> Readable(parse, fields[k])) && out.Keys == fields.Keys &&
              (forall k :: k in keys && k in fields ==> out[k].Float? && ReadsAs(parse, fields[k], out[k].x)) &&
              forall k :: k !in keys && k in fields ==> out[k] == fields[k]
            case Err(e) =>
              exists i :: 0 <= i < |keys| && e == NotANumber(keys[i]) && keys[i] in fields &&
                          !Readable(parse, fields[keys[i]]) &&
                          forall j :: 0 <= j < i && keys[j] in fields ==> Readable(parse, fields[keys[j]])
  {
    if keys != [] {
      var first, rest := keys[0], keys[1..];
      assert keys == [first] + rest;
      if first in fields {
        ToFloatReads(parse, fields[first]);
      }
      hide ToFloat, ReadsAs, Readable;
      if first !in fields {
        CoercedIs(parse, fields, rest);
      } else if ToFloat(parse, fields[first]).Some? {
        CoercedIs(parse, fields[first := Float(ToFloat(parse, fields[first]).value)], rest);
      }
    }
  }

  lemma NextPart(items: seq<Json>, k: nat)
    requires k < |items|
    ensures var before, after := Cleaned(items[..k]), Cleaned(items[..k + 1]);
            var at, at' := Where(k, PartAt(items)), Where(k + 1, PartAt(items));
            (after == before && at' == at) ||
            (at' == at + [k] && |after| == |before| + 1 && after == before + [after[|before|]] &&
             PartOf(after[|before|], items[k]))
  {
    assert items[..k + 1][..k] == items[..k];
    var item := items[k];
    if item.Obj? {
      var part := Kept(item.fields, CONTRIBUTOR_KEYS);
      assert PartOf(Obj(part), item);
      assert (DimensionKey in part <==> Given(item.fields, DimensionKey)) &&
             (LabelKey in part <==> Given(item.fields, LabelKey)) &&
             (ValueKey in part <==> Given(item.fields, ValueKey)) &&
             (SharePctKey in part <==> Given(item.fields, SharePctKey));
      if part != map[] {
        var key :| key in part;
        assert Given(item.fields, key);
      }
      assert HasPart(item) <==> part != map[];
    }
    hide Kept, HasPart;
  }

  lemma {:induction false} FirstParts(items: seq<Json>, k: nat)
    requires k <= |items|
    ensures PartsAt(Cleaned(items[..k]), items, Where(k, PartAt(items)))
  {
    if k > 0 {
      NextPart(items, k - 1);
      hide Cleaned, Where, PartOf, PartAt;
      FirstParts(items, k - 1);
    }
  }

  /** The cleaned contributors are the items with a given part, in order. */
  lemma CleanedIs(items: seq<Json>)
    ensures PartsAt(Cleaned(items), items, Where(|items|, PartAt(items)))
  {
    FirstParts(items, |items|);
    assert items[..|items|] == items;
  }

  // ---- the whole ----

  lemma LabelIs(fields: Fields)
    ensures var kept := Kept(fields, ALLOWED_KEYS);
            MetricLabelKey in kept && !BlankLabel(kept[MetricLabelKey]) <==> LabelGiven(fields)
  {
    KeptIs(fields);
    if Given(fields, MetricLabelKey) && fields[MetricLabelKey].Str? {
      StripEnds(fields[MetricLabelKey].s);
    }
    hide Kept, Strip, Blank;
  }

  lemma NumbersAre(parse: string -> Option<real>, fields: Fields)
    ensures match Coerced(parse, Kept(fields, ALLOWED_KEYS), NUMBER_KEYS)
            case Ok(out) =>
              NoneUnreadable(parse, fields) && out.Keys == Kept(fields, ALLOWED_KEYS).Keys &&
              forall k :: k in out ==> if k in NUMBERS then out[k].Float? && ReadsAs(parse, fields[k], out[k].x)
                                       else out[k] == fields[k]
            case Err(e) => e.NotANumber? && FirstUnreadable(parse, fields, e.key)
  {
    KeptIs(fields);
    CoercedIs(parse, Kept(fields, ALLOWED_KEYS), NUMBER_KEYS);
    assert NUMBER_KEYS == NUMBERS;
    hide Kept, Coerced, Readable, ReadsAs;
  }

  lemma ContributorsAre(parse: string -> Option<real>, fields: Fields, numbers: Fields)
    requires TopContributorsKey in numbers && TopContributorsKey in fields
    requires numbers[TopContributorsKey] == fields[TopContributorsKey]
    ensures match WithContributors(numbers)
            case Err(e) => e == ContributorsNotAList && !fields[TopContributorsKey].List?
            case Ok(out) =>
              fields[TopContributorsKey].List? && out.Keys == numbers.Keys &&
              KeptAs(parse, TopContributorsKey, fields[TopContributorsKey], out[TopContributorsKey]) &&
              forall k :: k in out && k != TopContributorsKey ==> out[k] == numbers[k]
  {
    if fields[TopContributorsKey].List? {
      CleanedIs(FirstTen(fields[TopContributorsKey].items));
    }
    hide Cleaned, PartsAt, Where;
  }

  predicate HoldsText(k: Key)
  {
    match k
    case MetricLabelKey | ComparisonLabelKey | ThresholdLabelKey | TimeRangeKey | ValueFormatKey
       | ExtraContextKey => true
    case _ => false
  }

  lemma KeyKinds(k: Key)
    ensures k in TEXT_KEYS <==> HoldsText(k)
    ensures k in NUMBERS <==> k.MetricValueKey? || k.ComparisonValueKey? || k.DeltaAbsKey? || k.DeltaPctKey?
  {
  }

  lemma ShortIs(bounded: Fields, k: Key)
    requires k in bounded
    ensures WithShortText(bounded)[k] ==
            if HoldsText(k) && bounded[k].Str? && |bounded[k].s| > 200 then Str(bounded[k].s[..200]) else bounded[k]
  {
    KeyKinds(k);
  }

  lemma ValueKept(parse: string -> Option<real>, fields: Fields, numbers: Fields, bounded: Fields, k: Key)
    requires k in numbers && k in fields && k in bounded
    requires if k in NUMBERS then numbers[k].Float? && ReadsAs(parse, fields[k], numbers[k].x)
             else numbers[k] == fields[k]
    requires if k == TopContributorsKey then KeptAs(parse, k, fields[k], bounded[k]) else bounded[k] == numbers[k]
    ensures KeptAs(parse, k, fields[k], WithShortText(bounded)[k])
  {
    KeyKinds(k);
    ShortIs(bounded, k);
    hide PartsAt, Where, ReadsAs, WithShortText;
  }

  lemma AllKept(parse: string -> Option<real>, fields: Fields, numbers: Fields, bounded: Fields)
    requires numbers.Keys == bounded.Keys && forall k :: k in numbers ==> k in fields
    requires forall k :: k in numbers ==>
               if k in NUMBERS then numbers[k].Float? && ReadsAs(parse, fields[k], numbers[k].x)
               else numbers[k] == fields[k]
    requires forall k :: k in bounded ==>
               if k == TopContributorsKey then KeptAs(parse, k, fields[k], bounded[k]) else bounded[k] == numbers[k]
    ensures WithShortText(bounded).Keys == numbers.Keys
    ensures forall k :: k in numbers ==> KeptAs(parse, k, fields[k], WithShortText(bounded)[k])
  {
    hide KeptAs, ReadsAs;
    forall k | k in numbers
      ensures KeptAs(parse, k, fields[k], WithShortText(bounded)[k])
    {
      ValueKept(parse, fields, numbers, bounded, k);
    }
  }

  /** What is answered to a body that is an object: the first thing that is wrong with it, in the order label, value,
      numbers, contributors; and else the known members that are given, each with its value. */
  lemma NormaliseIs(parse: string -> Option<real>, fields: Fields)
    ensures match Normalise(parse, Obj(fields))
            case Ok(p) =>
              LabelGiven(fields) && Given(fields, MetricValueKey) && NoneUnreadable(parse, fields) &&
              (Given(fields, TopContributorsKey) ==> fields[TopContributorsKey].List?) &&
              (forall k :: k in p <==> Known(k) && Given(fields, k)) &&
              forall k :: k in p ==> KeptAs(parse, k, fields[k], p[k])
            case Err(LabelRequired) => !LabelGiven(fields)
            case Err(ValueRequired) => LabelGiven(fields) && !Given(fields, MetricValueKey)
            case Err(NotANumber(k)) =>
              LabelGiven(fields) && Given(fields, MetricValueKey) && FirstUnreadable(parse, fields, k)
            case Err(ContributorsNotAList) =>
              LabelGiven(fields) && Given(fields, MetricValueKey) && NoneUnreadable(parse, fields) &&
              Given(fields, TopContributorsKey) && !fields[TopContributorsKey].List?
            case Err(NotAnObject) => false
  {
    var kept := Kept(fields, ALLOWED_KEYS);
    KeptIs(fields);
    LabelIs(fields);
    NumbersAre(parse, fields);
    hide Kept, Coerced, BlankLabel, LabelGiven, FirstUnreadable, NoneUnreadable, WithContributors, WithShortText;
    hide KeptAs, ReadsAs;
    var coerced := Coerced(parse, kept, NUMBER_KEYS);
    if coerced.Ok? {
      var numbers := coerced.value;
      if TopContributorsKey in numbers {
        ContributorsAre(parse, fields, numbers);
      } else {
        assert WithContributors(numbers) == Ok(numbers) by {
          NoContributors(numbers);
        }
      }
      var bounded := WithContributors(numbers);
      if bounded.Ok? {
        AllKept(parse, fields, numbers, bounded.value);
      }
    }
  }

  lemma NoContributors(fields: Fields)
    requires TopContributorsKey !in fields
    ensures WithContributors(fields) == Ok(fields)
  {
  }

  // ---- the text of a model response ----

  /** A block of type text with a text. */
  ghost predicate TextIn(v: Json, text: string)
  {
    v.Obj? && TypeKey in v.fields && v.fields[TypeKey] == Str("text") && TextKey in v.fields &&
    v.fields[TextKey] == Str(text)
  }

  ghost function TextAt(blocks: seq<Json>): nat -> bool
  {
    (i: nat) => i < |blocks| && exists text :: TextIn(blocks[i], text)
  }

  ghost predicate TextsAt(texts: seq<string>, blocks: seq<Json>, at: seq<nat>)
  {
    |texts| == |at| && forall j :: 0 <= j < |at| ==> at[j] < |blocks| && TextIn(blocks[at[j]], texts[j])
  }

  lemma {:induction false} TextsOf(blocks: seq<Json>, k: nat)
    requires k <= |blocks|
    ensures TextsAt(Texts(blocks[..k]), blocks, Where(k, TextAt(blocks)))
  {
    if k > 0 {
      var b := blocks[k - 1];
      assert blocks[..k][..k - 1] == blocks[..k - 1];
      assert IsTextBlock(b) <==> TextAt(blocks)(k - 1) by {
        assert IsTextBlock(b) ==> TextIn(b, b.fields[TextKey].s);
      }
      var more := if IsTextBlock(b) then [b.fields[TextKey].s] else [];
      var place := if IsTextBlock(b) then [k - 1] else [];
      assert Texts(blocks[..k]) == Texts(blocks[..k - 1]) + more;
      assert Where(k, TextAt(blocks)) == Where(k - 1, TextAt(blocks)) + place;
      assert IsTextBlock(b) ==> TextIn(b, more[0]);
      hide Texts, Where, TextAt, TextIn, IsTextBlock;
      TextsOf(blocks, k - 1);
    }
  }

  /** A response without content has no text; one whose content is of another kind, or which is no object, is wrong. */
  lemma NoContent(body: Json)
    ensures !body.Obj? ==> ResponseText(body) == Err(ResponseNotAnObject)
    ensures body.Obj? && (ContentKey !in body.fields || body.fields[ContentKey] == Null) ==>
              ResponseText(body) == Err(NoText)
    ensures body.Obj? && ContentKey in body.fields ==>
              var c := body.fields[ContentKey];
              c == Bool(true) || (c.Str? && c.s != "") || (c.Obj? && c.fields != map[]) ==>
                ResponseText(body) == Err(ContentNotAList)
  {
    assert Texts([]) == [] && Lines([]) == "" && Strip("") == "";
  }

  /** The text of a response with a list of blocks: the texts of its text blocks, one a line, without blank text at the
      ends; without any text there is an error. */
  lemma ResponseIs(fields: Fields)
    requires ContentKey in fields && fields[ContentKey].List?
    ensures var blocks := fields[ContentKey].items;
            exists texts :: TextsAt(texts, blocks, Where(|blocks|, TextAt(blocks))) &&
                            match ResponseText(Obj(fields))
                            case Ok(text) => text != "" && Trimmed(Lines(texts), text)
                            case Err(e) => e == NoText && Blank(Lines(texts))
  {
    var blocks := fields[ContentKey].items;
    TextsOf(blocks, |blocks|);
    assert blocks[..|blocks|] == blocks;
    StripTrims(Lines(Texts(blocks)));
    StripEnds(Lines(Texts(blocks)));
    assert Content(fields) == List(blocks);
    hide Texts, Where, TextsAt, Lines, Strip, Trimmed, Blank;
  }
}
