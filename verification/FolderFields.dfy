/** Validation of one report category. */
module FolderFields {
  import opened Options
  import opened Text
  import opened FolderTree

  const MAX_NAME := 64
  const MAX_ID := 63
  const MAX_DESCRIPTION := 256
  const DEFAULT_ICON := "folder"
  const DEFAULT_COLOR := "#6b7280"

  /** NotText: a JSON value that is neither null nor a string. */
  datatype ParentValue = Absent | Null | Text(text: string) | NotText

  /** A request body; None stands for a missing or null member. */
  datatype Body = Body(id: Option<string>, name: Option<string>, icon: Option<string>, color: Option<string>,
                       description: Option<string>, parent: ParentValue)

  datatype FieldError = NameMissing | NameTooLong | IdMalformed | IdTaken | ColorMalformed | DescriptionTooLong
                      | ParentMalformed

  // ---- text ----

  predicate AlphaNumeric(c: char)
  {
    'a' <= c <= 'z' || '0' <= c <= '9'
  }

  predicate Slug(s: string)
  {
    0 < |s| <= MAX_ID && AlphaNumeric(s[0]) &&
    forall i :: 0 <= i < |s| ==> AlphaNumeric(s[i]) || s[i] == '_' || s[i] == '-'
  }

  predicate HexDigit(c: char)
  {
    '0' <= c <= '9' || 'a' <= c <= 'f' || 'A' <= c <= 'F'
  }

  predicate HexColor(s: string)
  {
    |s| == 7 && s[0] == '#' && forall i :: 1 <= i < 7 ==> HexDigit(s[i])
  }

  function LowerChar(c: char): char
  {
    if 'A' <= c <= 'Z' then c + 32 as char else c
  }

  /** str.lower on ASCII letters. */
  function Lower(s: string): (l: string)
    ensures |l| == |s| && forall i :: 0 <= i < |s| ==> l[i] == LowerChar(s[i])
  {
    if s == "" then "" else [LowerChar(s[0])] + Lower(s[1..])
  }

  /** An upper-case letter becomes the lower-case one at the same place of the alphabet; all else stays. */
  lemma LowerIs(s: string, i: nat)
    requires i < |s|
    ensures if 'A' <= s[i] <= 'Z' then Lower(s)[i] as int - 'a' as int == s[i] as int - 'A' as int
            else Lower(s)[i] == s[i]
  {
  }

  /** re.sub("[^a-z0-9]+", "-", s); `run` says that the text before s ended in a replaced run. */
  function Dashed(s: string, run: bool): string
  {
    if s == "" then "" else
    if AlphaNumeric(s[0]) then [s[0]] + Dashed(s[1..], false) else (if run then "" else "-") + Dashed(s[1..], true)
  }

  function DashLeft(s: string): string
  {
    if s != "" && s[0] == '-' then DashLeft(s[1..]) else s
  }

  function DashRight(s: string): string
  {
    if s != "" && s[|s| - 1] == '-' then DashRight(s[..|s| - 1]) else s
  }

  /** The id that a category without one gets from its name. */
  function DerivedId(name: string): string
  {
    var id := DashRight(DashLeft(Dashed(Lower(name), false)));
    if |id| > MAX_ID then id[..MAX_ID] else id
  }

  // ---- the cleaned category ----

  function OrEmpty(value: Option<string>): string
  {
    if value.Some? then value.value else ""
  }

  function OrDefault(value: string, default: string): string
  {
    if value == "" then default else value
  }

  function CleanId(body: Body, isUpdate: bool): string
  {
    var id := Lower(Strip(OrEmpty(body.id)));
    if !isUpdate && id == "" then DerivedId(Strip(OrEmpty(body.name))) else id
  }

  function NormaliseParent(value: ParentValue): Result<Option<string>, FieldError>
  {
    match value
    case Absent | Null => Ok(None)
    case NotText => Err(ParentMalformed)
    case Text(text) =>
      var p := Lower(Strip(text));
      Ok(if p == "" then None else Some(p))
  }

  function Clean(body: Body, isUpdate: bool): Category
  {
    var parent := NormaliseParent(body.parent);
    Category(CleanId(body, isUpdate), Strip(OrEmpty(body.name)), OrDefault(Strip(OrEmpty(body.icon)), DEFAULT_ICON),
             OrDefault(Strip(OrEmpty(body.color)), DEFAULT_COLOR), Strip(OrEmpty(body.description)),
             if parent.Ok? then parent.value else None)
  }

  /** What each error says about the body. */
  predicate Wrong(error: FieldError, body: Body, existing: set<string>, isUpdate: bool)
  {
    var c := Clean(body, isUpdate);
    match error
    case NameMissing => c.name == ""
    case NameTooLong => |c.name| > MAX_NAME
    case IdMalformed => !isUpdate && !Slug(c.id)
    case IdTaken => !isUpdate && c.id in existing
    case ColorMalformed => !HexColor(c.color)
    case DescriptionTooLong => |c.description| > MAX_DESCRIPTION
    case ParentMalformed => body.parent.NotText?
  }

  ghost predicate Acceptable(body: Body, existing: set<string>, isUpdate: bool)
  {
    forall error :: !Wrong(error, body, existing, isUpdate)
  }

  lemma ErrorsDecide(errors: seq<FieldError>, body: Body, existing: set<string>, isUpdate: bool)
    requires forall error :: error in errors <==> Wrong(error, body, existing, isUpdate)
    ensures Acceptable(body, existing, isUpdate) <==> errors == []
  {
    hide Wrong;
    if errors != [] {
      assert errors[0] in errors;
    }
  }

  /** The id part of the validation. */
  method CheckId(body: Body, existing: set<string>, isUpdate: bool) returns (id: string, errors: seq<FieldError>)
    ensures id == CleanId(body, isUpdate)
    ensures forall error :: error in errors <==>
              !isUpdate && ((error == IdMalformed && !Slug(id)) || (error == IdTaken && id in existing))
  {
    hide Strip, Lower, DerivedId, Slug, OrEmpty;
    errors := [];
    id := Lower(Strip(OrEmpty(body.id)));
    if !isUpdate {
      if id == "" {
        id := DerivedId(Strip(OrEmpty(body.name)));
      }
      if !Slug(id) {
        errors := errors + [IdMalformed];
      }
      if id in existing {
        errors := errors + [IdTaken];
      }
    }
  }

  method Validate(body: Body, existing: set<string>, isUpdate: bool)
    returns (result: Result<Category, seq<FieldError>>)
    ensures result.Ok? <==> Acceptable(body, existing, isUpdate)
    ensures result.Ok? ==> result.value == Clean(body, isUpdate)
    ensures result.Err? ==> forall error :: error in result.error <==> Wrong(error, body, existing, isUpdate)
  {
    hide Strip, Lower, DerivedId, Slug, HexColor, OrEmpty, CleanId;
    var errors := [];
    var name := Strip(OrEmpty(body.name));
    if name == "" {
      errors := errors + [NameMissing];
    } else if |name| > MAX_NAME {
      errors := errors + [NameTooLong];
    }
    var id, idErrors := CheckId(body, existing, isUpdate);
    errors := errors + idErrors;
    var icon := OrDefault(Strip(OrEmpty(body.icon)), DEFAULT_ICON);
    var color := OrDefault(Strip(OrEmpty(body.color)), DEFAULT_COLOR);
    if color != "" && !HexColor(color) {
      errors := errors + [ColorMalformed];
    }
    var description := Strip(OrEmpty(body.description));
    if |description| > MAX_DESCRIPTION {
      errors := errors + [DescriptionTooLong];
    }
    var parent := NormaliseParent(body.parent);
    if parent.Err? {
      errors := errors + [parent.error];
    }
    var checked := if parent.Ok? then parent.value else None;
    assert Clean(body, isUpdate) == Category(id, name, icon, color, description, checked);
    hide Clean, NormaliseParent, OrDefault;
    assert forall error :: error in errors <==> Wrong(error, body, existing, isUpdate);
    ErrorsDecide(errors, body, existing, isUpdate);
    hide *;
    if errors != [] {
      return Err(errors);
    }
    return Ok(Category(id, name, icon, color, description, checked));
  }

  // ---- what an accepted category looks like ----

  /** Everything a stored category's own fields keep to. */
  ghost predicate Tidy(c: Category)
  {
    Slug(c.id) && 0 < |c.name| <= MAX_NAME && Strip(c.name) == c.name && c.icon != "" && Strip(c.icon) == c.icon &&
    HexColor(c.color) && |c.description| <= MAX_DESCRIPTION && Strip(c.description) == c.description &&
    (c.parent.Some? ==> c.parent.value != "" && Lower(Strip(c.parent.value)) == c.parent.value)
  }

  lemma StripTwice(s: string)
    ensures Strip(Strip(s)) == Strip(s)
  {
    StripEnds(s);
    StripFixed(Strip(s));
  }

  lemma LowerFixed(s: string)
    requires s != "" ==> !IsSpace(s[0]) && !IsSpace(s[|s| - 1])
    ensures Strip(Lower(s)) == Lower(s) && Lower(Lower(s)) == Lower(s)
  {
    hide Strip, Lower;
    assert forall c: char :: IsSpace(LowerChar(c)) == IsSpace(c) && LowerChar(LowerChar(c)) == LowerChar(c);
    hide LowerChar, IsSpace;
    StripFixed(Lower(s));
  }

  lemma LowerStripTwice(s: string)
    ensures Lower(Strip(Lower(Strip(s)))) == Lower(Strip(s))
  {
    hide Strip, Lower;
    StripEnds(s);
    LowerFixed(Strip(s));
  }

  lemma SlugIsFixed(s: string)
    requires Slug(s)
    ensures Strip(s) == s && Lower(s) == s && s != ""
  {
    StripFixed(s);
    hide Strip, Lower;
    assert Lower(s) == s;
  }

  // ---- derived ids ----

  ghost predicate DashedText(s: string)
  {
    forall c :: c in s ==> AlphaNumeric(c) || c == '-'
  }

  ghost predicate HasAlphaNumeric(s: string)
  {
    exists c :: c in s && AlphaNumeric(c)
  }

  lemma {:induction false} DashedIs(s: string, run: bool)
    ensures DashedText(Dashed(s, run))
    ensures HasAlphaNumeric(Dashed(s, run)) <==> HasAlphaNumeric(s)
  {
    if s != "" {
      DashedIs(s[1..], !AlphaNumeric(s[0]));
      assert s == [s[0]] + s[1..];
    }
  }

  lemma {:induction false} DashLeftIs(s: string)
    requires DashedText(s)
    ensures DashedText(DashLeft(s)) && (HasAlphaNumeric(DashLeft(s)) <==> HasAlphaNumeric(s))
    ensures DashLeft(s) != "" ==> AlphaNumeric(DashLeft(s)[0])
  {
    if s != "" && s[0] == '-' {
      assert s == [s[0]] + s[1..];
      DashLeftIs(s[1..]);
    }
  }

  lemma {:induction false} DashRightIs(s: string)
    requires s != "" && AlphaNumeric(s[0])
    ensures DashRight(s) != "" && DashRight(s) <= s
  {
    if s[|s| - 1] == '-' {
      DashRightIs(s[..|s| - 1]);
    }
  }

  /** A derived id is a valid slug, unless the name has no letter or digit for it. */
  lemma DerivedIdIsSlug(name: string)
    ensures if HasAlphaNumeric(Lower(name)) then Slug(DerivedId(name)) else DerivedId(name) == ""
  {
    var dashed := Dashed(Lower(name), false);
    DashedIs(Lower(name), false);
    DashLeftIs(dashed);
    var left := DashLeft(dashed);
    hide Dashed, DashLeft, Lower;
    if left != "" {
      DashRightIs(left);
      var id := DashRight(left);
      hide DashRight;
      assert id == left[..|id|] && id[0] == left[0];
      assert left[0] in left;
      assert forall i :: 0 <= i < |id| ==> id[i] in left;
    }
  }

  // ---- accepted bodies ----

  lemma AcceptedIsTidy(body: Body, existing: set<string>, isUpdate: bool)
    requires Acceptable(body, existing, isUpdate) && (isUpdate ==> Slug(CleanId(body, true)))
    ensures Tidy(Clean(body, isUpdate))
    ensures !isUpdate ==> Clean(body, isUpdate).id !in existing
  {
    hide Slug, HexColor, Lower, DerivedId, Strip, OrEmpty;
    StripTwice(OrEmpty(body.name));
    StripTwice(OrEmpty(body.description));
    StripTwice(OrEmpty(body.icon));
    StripFixed(DEFAULT_ICON);
    if body.parent.Text? {
      LowerStripTwice(body.parent.text);
    }
    assert !Wrong(NameMissing, body, existing, isUpdate) && !Wrong(NameTooLong, body, existing, isUpdate);
    assert !Wrong(IdMalformed, body, existing, isUpdate) && !Wrong(IdTaken, body, existing, isUpdate);
    assert !Wrong(ColorMalformed, body, existing, isUpdate);
    assert !Wrong(DescriptionTooLong, body, existing, isUpdate);
    assert !Wrong(ParentMalformed, body, existing, isUpdate);
  }

  /** The body a client sends to store a category as it is. */
  function AsBody(c: Category): Body
  {
    Body(Some(c.id), Some(c.name), Some(c.icon), Some(c.color), Some(c.description),
         if c.parent.Some? then Text(c.parent.value) else Null)
  }

  /** Sending a stored category back is accepted and changes nothing. */
  lemma TidyRoundTrip(c: Category, existing: set<string>)
    requires Tidy(c) && c.id !in existing
    ensures Acceptable(AsBody(c), existing, false) && Clean(AsBody(c), false) == c
  {
    SlugIsFixed(c.id);
    StripFixed(c.color);
    hide Strip, Lower, DerivedId, Slug, HexColor;
    assert CleanId(AsBody(c), false) == c.id;
  }
}
