/**
 * Spec field validation: the status- and type-conditional rule table, the
 * "no content" test, the change-detection projection and the choice of a
 * design item status.
 */
module UploadValidator {
  import opened Wrappers
  import opened GoStrings
  import opened UploadTypes

  // Length limits of the server's spec DTO.
  const MaxNameLength: nat := 255
  const MaxNameTransLength: nat := 255
  const MaxButtonTypeLength: nat := 255
  const MaxOtherTypeLength: nat := 255
  const MaxFormatLength: nat := 255
  const MaxDefaultValueLength: nat := 255
  const MaxTableNameLength: nat := 255
  const MaxColumnNameLength: nat := 255
  const MaxNavigationNoteLength: nat := 2000
  const MaxValidationNoteLength: nat := 2000
  const MaxDatabaseNoteLength: nat := 2000
  const MaxDescriptionLength: nat := 10000

  const AcceptedOptionTypes: seq<string> := [
    "button", "checkbox", "radio_button", "dropdown",
    "file_or_image", "video", "date_picker", "pagination",
    "popup_dialog", "label", "text_form", "textarea", "others"]
  const AcceptedDataTypes: seq<string> := [
    "array", "boolean", "byte", "character", "string",
    "date", "integer", "long", "short", "float", "double", "nothing"]
  const AcceptedButtonTypes: seq<string> := ["icon_text", "toggle", "text_link", "others"]
  const AcceptedActionTypes: seq<string> := ["on_click", "while_hovering", "key_gamepad", "after_delay"]
  const TypesRequiringDataType: seq<string> := ["textarea", "text_form", "others"]
  const TypesRequiringLength: seq<string> := ["textarea", "text_form", "file_or_image", "video", "others"]
  const TypesWithoutValidation: seq<string> := ["button", "label"]

  /** Membership in one of the tables, unfolded one element at a time. */
  predicate Member(item: string, list: seq<string>) {
    |list| > 0 && (list[0] == item || Member(item, list[1..]))
  }

  lemma {:induction false} MemberIsIn(item: string, list: seq<string>)
    ensures Member(item, list) <==> item in list
  {
    if |list| > 0 {
      MemberIsIn(item, list[1..]);
      assert list == [list[0]] + list[1..];
    }
  }

  // ----------------------------------------------------------- content fields

  /**
   * The 19 content fields of a spec, as opposed to its structural fields (No,
   * DesignItemName, NodeLinkID, SectionLinkID, IsReviewed).
   */
  datatype ContentField =
    | Name | NameTrans | ItemType | ButtonType | OtherType | Action | LinkedFrameId
    | NavigationNote | DataType | Required | Format | MinLength | MaxLength | DefaultValue
    | ValidationNote | TableName | ColumnName | DatabaseNote | Description

  /** The key of a field in the comparison map (its JSON name). */
  function JsonKey(f: ContentField): string {
    match f
    case Name => "name"
    case NameTrans => "nameTrans"
    case ItemType => "type"
    case ButtonType => "buttonType"
    case OtherType => "otherType"
    case Action => "action"
    case LinkedFrameId => "linkedFrameId"
    case NavigationNote => "navigationNote"
    case DataType => "dataType"
    case Required => "required"
    case Format => "format"
    case MinLength => "minLength"
    case MaxLength => "maxLength"
    case DefaultValue => "defaultValue"
    case ValidationNote => "validationNote"
    case TableName => "tableName"
    case ColumnName => "columnName"
    case DatabaseNote => "databaseNote"
    case Description => "description"
  }

  /** A value of a comparison map: Go's `interface{}` holding a string, a bool, an int or nil. */
  datatype FieldValue = Str(s: string) | Bool(b: bool) | Int(i: int) | Nil

  function OptBool(o: Option<bool>): FieldValue {
    match o case Some(b) => Bool(b) case None => Nil
  }

  function OptInt(o: Option<int>): FieldValue {
    match o case Some(i) => Int(i) case None => Nil
  }

  /** The value of one content field of `s`. */
  function Content(s: Spec, f: ContentField): FieldValue {
    match f
    case Name => Str(s.name)
    case NameTrans => Str(s.nameTrans)
    case ItemType => Str(s.itemType)
    case ButtonType => Str(s.buttonType)
    case OtherType => Str(s.otherType)
    case Action => Str(s.action)
    case LinkedFrameId => Str(s.linkedFrameId)
    case NavigationNote => Str(s.navigationNote)
    case DataType => Str(s.dataType)
    case Required => OptBool(s.required)
    case Format => Str(s.format)
    case MinLength => OptInt(s.minLength)
    case MaxLength => OptInt(s.maxLength)
    case DefaultValue => Str(s.defaultValue)
    case ValidationNote => Str(s.validationNote)
    case TableName => Str(s.tableName)
    case ColumnName => Str(s.columnName)
    case DatabaseNote => Str(s.databaseNote)
    case Description => Str(s.description)
  }

  /** What an unset field holds: "" for a string field, nil for a pointer field. */
  function Unset(f: ContentField): FieldValue {
    if f.Required? || f.MinLength? || f.MaxLength? then Nil else Str("")
  }

  /** Every content field. */
  const AllFields: set<ContentField> := {
    Name, NameTrans, ItemType, ButtonType, OtherType, Action, LinkedFrameId,
    NavigationNote, DataType, Required, Format, MinLength, MaxLength, DefaultValue,
    ValidationNote, TableName, ColumnName, DatabaseNote, Description}

  lemma AllFieldsComplete(f: ContentField)
    ensures f in AllFields
  {
  }

  // ---------------------------------------------------------------- messages

  /** The rule that fired, one constructor per message of the table. */
  datatype Violation =
    | TypeRequired
    | NotAccepted(field: ContentField)
    | TooLong(field: ContentField)
    | NegativeMinLength
    | NegativeMaxLength
    | MinNotBelowMax

  /**
   * The text reported for a violation: the `fmt.Sprintf` rendering of the
   * field name with its limit, or with its accepted list printed by `%v`.
   */
  function Message(v: Violation): string {
    match v
    case TypeRequired => "type is required when status is completed"
    case NotAccepted(ItemType) => "type must be one of: [button checkbox radio_button dropdown file_or_image video date_picker pagination popup_dialog label text_form textarea others]"
    case NotAccepted(ButtonType) => "buttonType must be one of: [icon_text toggle text_link others]"
    case NotAccepted(Action) => "action must be one of: [on_click while_hovering key_gamepad after_delay]"
    case NotAccepted(_) => "dataType must be one of: [array boolean byte character string date integer long short float double nothing]"
    case TooLong(Name) => "name must not exceed 255 characters"
    case TooLong(NameTrans) => "nameTrans must not exceed 255 characters"
    case TooLong(OtherType) => "otherType must not exceed 255 characters"
    case TooLong(NavigationNote) => "navigationNote must not exceed 2000 characters"
    case TooLong(Format) => "format must not exceed 255 characters"
    case TooLong(DefaultValue) => "defaultValue must not exceed 255 characters"
    case TooLong(ValidationNote) => "validationNote must not exceed 2000 characters"
    case TooLong(TableName) => "tableName must not exceed 255 characters"
    case TooLong(ColumnName) => "columnName must not exceed 255 characters"
    case TooLong(DatabaseNote) => "databaseNote must not exceed 2000 characters"
    case TooLong(_) => "description must not exceed 10000 characters"
    case NegativeMinLength => "minLength must be greater than or equal to 0"
    case NegativeMaxLength => "maxLength must be greater than or equal to 0"
    case MinNotBelowMax => "minLength must be less than maxLength"
  }

  // ------------------------------------------------------------ the rule table

  /** One guarded `errors = append(errors, ...)`. */
  function AddIf(errors: seq<Violation>, cond: bool, v: Violation): seq<Violation> {
    if cond then errors + [v] else errors
  }

  function TypeChecks(spec: Spec, isCompleted: bool, errors: seq<Violation>): seq<Violation> {
    if isCompleted || spec.itemType != "" then
      if spec.itemType == "" then errors + [TypeRequired]
      else AddIf(errors, !Member(spec.itemType, AcceptedOptionTypes), NotAccepted(ItemType))
    else errors
  }

  function ItemChecks(spec: Spec, isCompleted: bool, errors: seq<Violation>): seq<Violation> {
    var e1 := AddIf(errors, (isCompleted || spec.name != "") && |spec.name| > MaxNameLength, TooLong(Name));
    var e2 := AddIf(e1, (isCompleted || spec.nameTrans != "") && |spec.nameTrans| > MaxNameTransLength,
                    TooLong(NameTrans));
    var e3 := AddIf(e2, ((spec.itemType == "button" && isCompleted) || spec.buttonType != "")
                        && spec.buttonType != "" && !Member(spec.buttonType, AcceptedButtonTypes),
                    NotAccepted(ButtonType));
    AddIf(e3, ((spec.itemType == "others" && isCompleted) || spec.otherType != "")
              && |spec.otherType| > MaxOtherTypeLength, TooLong(OtherType))
  }

  function NavigationChecks(spec: Spec, isCompleted: bool, errors: seq<Violation>): seq<Violation> {
    var e1 := AddIf(errors, spec.action != "" && !Member(spec.action, AcceptedActionTypes), NotAccepted(Action));
    AddIf(e1, ((spec.action != "" && isCompleted) || spec.navigationNote != "")
              && |spec.navigationNote| > MaxNavigationNoteLength, TooLong(NavigationNote))
  }

  function ValidationChecks(spec: Spec, isCompleted: bool, errors: seq<Violation>): seq<Violation> {
    var e1 := AddIf(errors, ((Member(spec.itemType, TypesRequiringDataType) && isCompleted) || spec.dataType != "")
                            && spec.dataType != "" && !Member(spec.dataType, AcceptedDataTypes),
                    NotAccepted(DataType));
    var e2 := AddIf(e1, ((!Member(spec.itemType, TypesWithoutValidation) && isCompleted) || spec.format != "")
                        && |spec.format| > MaxFormatLength, TooLong(Format));
    var requiresLength := Member(spec.itemType, TypesRequiringLength) && isCompleted;
    var e3 := AddIf(e2, (requiresLength || spec.minLength.Some?)
                        && spec.minLength.Some? && spec.minLength.value < 0, NegativeMinLength);
    var e4 := AddIf(e3, (requiresLength || spec.maxLength.Some?)
                        && spec.maxLength.Some? && spec.maxLength.value < 0, NegativeMaxLength);
    var e5 := AddIf(e4, spec.minLength.Some? && spec.maxLength.Some?
                        && spec.minLength.value >= spec.maxLength.value, MinNotBelowMax);
    var e6 := AddIf(e5, (isCompleted || spec.defaultValue != "") && |spec.defaultValue| > MaxDefaultValueLength,
                    TooLong(DefaultValue));
    AddIf(e6, (isCompleted || spec.validationNote != "") && |spec.validationNote| > MaxValidationNoteLength,
          TooLong(ValidationNote))
  }

  function DatabaseChecks(spec: Spec, isCompleted: bool, errors: seq<Violation>): seq<Violation> {
    var requiresDatabase := isCompleted && spec.itemType != "button";
    var e1 := AddIf(errors, (requiresDatabase || spec.tableName != "") && |spec.tableName| > MaxTableNameLength,
                    TooLong(TableName));
    var e2 := AddIf(e1, (requiresDatabase || spec.columnName != "") && |spec.columnName| > MaxColumnNameLength,
                    TooLong(ColumnName));
    AddIf(e2, (requiresDatabase || spec.databaseNote != "") && |spec.databaseNote| > MaxDatabaseNoteLength,
          TooLong(DatabaseNote))
  }

  function DescriptionChecks(spec: Spec, isCompleted: bool, errors: seq<Violation>): seq<Violation> {
    AddIf(errors, (isCompleted || spec.description != "") && |spec.description| > MaxDescriptionLength,
          TooLong(Description))
  }

  /** The ordered list of rules `spec` violates when checked at `status`. */
  function Violations(spec: Spec, status: string): seq<Violation> {
    var c := status == StatusCompleted;
    var afterType := TypeChecks(spec, c, []);
    var afterItem := ItemChecks(spec, c, afterType);
    var afterNavigation := NavigationChecks(spec, c, afterItem);
    var afterValidation := ValidationChecks(spec, c, afterNavigation);
    DescriptionChecks(spec, c, DatabaseChecks(spec, c, afterValidation))
  }

  // ------------------------------------------------------------- the methods

  /** contains: linear search of a string slice. */
  method Contains(slice: seq<string>, item: string) returns (found: bool)
    ensures found <==> Member(item, slice)
  {
    MemberIsIn(item, slice);
    for i := 0 to |slice|
      invariant item !in slice[..i]
    {
      if slice[i] == item {
        return true;
      }
    }
    return false;
  }

  /**
   * ValidateSpecContent: append every rule that fires, in table order, one
   * section of the table after the other. The Go function appends the text
   * `Message(v)` where this appends the violation `v`.
   */
  method ValidateSpecContent(spec: Spec, status: string) returns (errors: seq<Violation>)
    ensures errors == Violations(spec, status)
  {
    var isCompleted := status == StatusCompleted;
    errors := CheckType(spec, isCompleted, []);
    errors := CheckItemSpecs(spec, isCompleted, errors);
    errors := CheckNavigationSpecs(spec, isCompleted, errors);
    errors := CheckValidationSpecs(spec, isCompleted, errors);
    errors := CheckDatabaseSpecs(spec, isCompleted, errors);
    errors := CheckDescription(spec, isCompleted, errors);
  }

  method CheckType(spec: Spec, isCompleted: bool, errors: seq<Violation>) returns (out: seq<Violation>)
    ensures out == TypeChecks(spec, isCompleted, errors)
  {
    out := errors;
    if isCompleted || spec.itemType != "" {
      if spec.itemType == "" {
        out := out + [TypeRequired];
      } else {
        var known := Contains(AcceptedOptionTypes, spec.itemType);
        if !known {
          out := out + [NotAccepted(ItemType)];
        }
      }
    }
  }

  method CheckItemSpecs(spec: Spec, isCompleted: bool, errors: seq<Violation>) returns (out: seq<Violation>)
    ensures out == ItemChecks(spec, isCompleted, errors)
  {
    out := errors;
    if (isCompleted || spec.name != "") && |spec.name| > MaxNameLength {
      out := out + [TooLong(Name)];
    }
    if (isCompleted || spec.nameTrans != "") && |spec.nameTrans| > MaxNameTransLength {
      out := out + [TooLong(NameTrans)];
    }
    if (spec.itemType == "button" && isCompleted) || spec.buttonType != "" {
      if spec.buttonType != "" {
        var known := Contains(AcceptedButtonTypes, spec.buttonType);
        if !known {
          out := out + [NotAccepted(ButtonType)];
        }
      }
    }
    if (spec.itemType == "others" && isCompleted) || spec.otherType != "" {
      if |spec.otherType| > MaxOtherTypeLength {
        out := out + [TooLong(OtherType)];
      }
    }
  }

  method CheckNavigationSpecs(spec: Spec, isCompleted: bool, errors: seq<Violation>) returns (out: seq<Violation>)
    ensures out == NavigationChecks(spec, isCompleted, errors)
  {
    out := errors;
    if spec.action != "" {
      var known := Contains(AcceptedActionTypes, spec.action);
      if !known {
        out := out + [NotAccepted(Action)];
      }
    }
    if (spec.action != "" && isCompleted) || spec.navigationNote != "" {
      if |spec.navigationNote| > MaxNavigationNoteLength {
        out := out + [TooLong(NavigationNote)];
      }
    }
  }

  method CheckValidationSpecs(spec: Spec, isCompleted: bool, errors: seq<Violation>) returns (out: seq<Violation>)
    ensures out == ValidationChecks(spec, isCompleted, errors)
  {
    out := CheckDataTypeAndFormat(spec, isCompleted, errors);
    var lengthType := Contains(TypesRequiringLength, spec.itemType);
    var requiresLength := lengthType && isCompleted;
    out := CheckLengths(spec, requiresLength, out);
    if (isCompleted || spec.defaultValue != "") && |spec.defaultValue| > MaxDefaultValueLength {
      out := out + [TooLong(DefaultValue)];
    }
    if (isCompleted || spec.validationNote != "") && |spec.validationNote| > MaxValidationNoteLength {
      out := out + [TooLong(ValidationNote)];
    }
  }

  /** The minLength and maxLength rules of the validation section. */
  method CheckLengths(spec: Spec, requiresLength: bool, errors: seq<Violation>) returns (out: seq<Violation>)
    ensures out == AddIf(AddIf(AddIf(errors,
                                     (requiresLength || spec.minLength.Some?)
                                     && spec.minLength.Some? && spec.minLength.value < 0, NegativeMinLength),
                               (requiresLength || spec.maxLength.Some?)
                               && spec.maxLength.Some? && spec.maxLength.value < 0, NegativeMaxLength),
                         spec.minLength.Some? && spec.maxLength.Some?
                         && spec.minLength.value >= spec.maxLength.value, MinNotBelowMax)
  {
    out := errors;
    if requiresLength || spec.minLength.Some? {
      if spec.minLength.Some? && spec.minLength.value < 0 {
        out := out + [NegativeMinLength];
      }
    }
    if requiresLength || spec.maxLength.Some? {
      if spec.maxLength.Some? && spec.maxLength.value < 0 {
        out := out + [NegativeMaxLength];
      }
    }
    if spec.minLength.Some? && spec.maxLength.Some? {
      if spec.minLength.value >= spec.maxLength.value {
        out := out + [MinNotBelowMax];
      }
    }
  }

  /** The dataType and format rules, the first two of the validation section. */
  method CheckDataTypeAndFormat(spec: Spec, isCompleted: bool, errors: seq<Violation>) returns (out: seq<Violation>)
    ensures out == AddIf(AddIf(errors,
                               ((Member(spec.itemType, TypesRequiringDataType) && isCompleted) || spec.dataType != "")
                               && spec.dataType != "" && !Member(spec.dataType, AcceptedDataTypes),
                               NotAccepted(DataType)),
                         ((!Member(spec.itemType, TypesWithoutValidation) && isCompleted) || spec.format != "")
                         && |spec.format| > MaxFormatLength, TooLong(Format))
  {
    out := errors;
    var needsDataType := Contains(TypesRequiringDataType, spec.itemType);
    if (needsDataType && isCompleted) || spec.dataType != "" {
      if spec.dataType != "" {
        var known := Contains(AcceptedDataTypes, spec.dataType);
        if !known {
          out := out + [NotAccepted(DataType)];
        }
      }
    }
    var withoutValidation := Contains(TypesWithoutValidation, spec.itemType);
    if (!withoutValidation && isCompleted) || spec.format != "" {
      if |spec.format| > MaxFormatLength {
        out := out + [TooLong(Format)];
      }
    }
  }

  method CheckDatabaseSpecs(spec: Spec, isCompleted: bool, errors: seq<Violation>) returns (out: seq<Violation>)
    ensures out == DatabaseChecks(spec, isCompleted, errors)
  {
    out := errors;
    var requiresDatabase := isCompleted && spec.itemType != "button";
    if (requiresDatabase || spec.tableName != "") && |spec.tableName| > MaxTableNameLength {
      out := out + [TooLong(TableName)];
    }
    if (requiresDatabase || spec.columnName != "") && |spec.columnName| > MaxColumnNameLength {
      out := out + [TooLong(ColumnName)];
    }
    if (requiresDatabase || spec.databaseNote != "") && |spec.databaseNote| > MaxDatabaseNoteLength {
      out := out + [TooLong(DatabaseNote)];
    }
  }

  method CheckDescription(spec: Spec, isCompleted: bool, errors: seq<Violation>) returns (out: seq<Violation>)
    ensures out == DescriptionChecks(spec, isCompleted, errors)
  {
    out := errors;
    if (isCompleted || spec.description != "") && |spec.description| > MaxDescriptionLength {
      out := out + [TooLong(Description)];
    }
  }
  // ------------------------------------------------------ properties of the table

  lemma AddIfKeepsPrefix(p: seq<Violation>, errors: seq<Violation>, cond: bool, v: Violation)
    ensures AddIf(p + errors, cond, v) == p + AddIf(errors, cond, v)
  {
    if cond {
      assert (p + errors) + [v] == p + (errors + [v]);
    }
  }

  /** Every section only appends: what was reported before it stays in front. */
  lemma ChecksKeepPrefix(spec: Spec, c: bool, p: seq<Violation>, errors: seq<Violation>)
    ensures TypeChecks(spec, c, p + errors) == p + TypeChecks(spec, c, errors)
    ensures ItemChecks(spec, c, p + errors) == p + ItemChecks(spec, c, errors)
    ensures NavigationChecks(spec, c, p + errors) == p + NavigationChecks(spec, c, errors)
    ensures ValidationChecks(spec, c, p + errors) == p + ValidationChecks(spec, c, errors)
    ensures DatabaseChecks(spec, c, p + errors) == p + DatabaseChecks(spec, c, errors)
    ensures DescriptionChecks(spec, c, p + errors) == p + DescriptionChecks(spec, c, errors)
  {
    TypeChecksKeepPrefix(spec, c, p, errors);
    ItemChecksKeepPrefix(spec, c, p, errors);
    NavigationChecksKeepPrefix(spec, c, p, errors);
    ValidationChecksKeepPrefix(spec, c, p, errors);
    DatabaseChecksKeepPrefix(spec, c, p, errors);
    DescriptionChecksKeepPrefix(spec, c, p, errors);
  }

  lemma TypeChecksKeepPrefix(spec: Spec, c: bool, p: seq<Violation>, errors: seq<Violation>)
    ensures TypeChecks(spec, c, p + errors) == p + TypeChecks(spec, c, errors)
  {
    forall q: seq<Violation>, e: seq<Violation>, cond: bool, v: Violation
      ensures AddIf(q + e, cond, v) == q + AddIf(e, cond, v)
    {
      AddIfKeepsPrefix(q, e, cond, v);
    }
  }

  lemma ItemChecksKeepPrefix(spec: Spec, c: bool, p: seq<Violation>, errors: seq<Violation>)
    ensures ItemChecks(spec, c, p + errors) == p + ItemChecks(spec, c, errors)
  {
    forall q: seq<Violation>, e: seq<Violation>, cond: bool, v: Violation
      ensures AddIf(q + e, cond, v) == q + AddIf(e, cond, v)
    {
      AddIfKeepsPrefix(q, e, cond, v);
    }
  }

  lemma NavigationChecksKeepPrefix(spec: Spec, c: bool, p: seq<Violation>, errors: seq<Violation>)
    ensures NavigationChecks(spec, c, p + errors) == p + NavigationChecks(spec, c, errors)
  {
    forall q: seq<Violation>, e: seq<Violation>, cond: bool, v: Violation
      ensures AddIf(q + e, cond, v) == q + AddIf(e, cond, v)
    {
      AddIfKeepsPrefix(q, e, cond, v);
    }
  }

  lemma ValidationChecksKeepPrefix(spec: Spec, c: bool, p: seq<Violation>, errors: seq<Violation>)
    ensures ValidationChecks(spec, c, p + errors) == p + ValidationChecks(spec, c, errors)
  {
    forall q: seq<Violation>, e: seq<Violation>, cond: bool, v: Violation
      ensures AddIf(q + e, cond, v) == q + AddIf(e, cond, v)
    {
      AddIfKeepsPrefix(q, e, cond, v);
    }
  }

  lemma DatabaseChecksKeepPrefix(spec: Spec, c: bool, p: seq<Violation>, errors: seq<Violation>)
    ensures DatabaseChecks(spec, c, p + errors) == p + DatabaseChecks(spec, c, errors)
  {
    forall q: seq<Violation>, e: seq<Violation>, cond: bool, v: Violation
      ensures AddIf(q + e, cond, v) == q + AddIf(e, cond, v)
    {
      AddIfKeepsPrefix(q, e, cond, v);
    }
  }

  lemma DescriptionChecksKeepPrefix(spec: Spec, c: bool, p: seq<Violation>, errors: seq<Violation>)
    ensures DescriptionChecks(spec, c, p + errors) == p + DescriptionChecks(spec, c, errors)
  {
    forall q: seq<Violation>, e: seq<Violation>, cond: bool, v: Violation
      ensures AddIf(q + e, cond, v) == q + AddIf(e, cond, v)
    {
      AddIfKeepsPrefix(q, e, cond, v);
    }
  }

  /** After the type section, every gate is implied by its own check: the status no longer matters. */
  lemma ChecksIgnoreCompletion(spec: Spec, errors: seq<Violation>)
    ensures ItemChecks(spec, true, errors) == ItemChecks(spec, false, errors)
    ensures NavigationChecks(spec, true, errors) == NavigationChecks(spec, false, errors)
    ensures ValidationChecks(spec, true, errors) == ValidationChecks(spec, false, errors)
    ensures DatabaseChecks(spec, true, errors) == DatabaseChecks(spec, false, errors)
    ensures DescriptionChecks(spec, true, errors) == DescriptionChecks(spec, false, errors)
  {
  }

  /**
   * Apart from the leading "type is required" message, the completed list is
   * the draft list.
   */
  lemma CompletedIsDraftPlusTypeRequired(spec: Spec)
    ensures Violations(spec, StatusCompleted)
            == (if spec.itemType == "" then [TypeRequired] else []) + Violations(spec, StatusDraft)
  {
    var p: seq<Violation> := if spec.itemType == "" then [TypeRequired] else [];
    var t0 := TypeChecks(spec, false, []);
    assert TypeChecks(spec, true, []) == p + t0;
    var i0 := ItemChecks(spec, false, t0);
    ChecksIgnoreCompletion(spec, p + t0);
    ChecksKeepPrefix(spec, false, p, t0);
    var n0 := NavigationChecks(spec, false, i0);
    ChecksIgnoreCompletion(spec, p + i0);
    ChecksKeepPrefix(spec, false, p, i0);
    var v0 := ValidationChecks(spec, false, n0);
    ChecksIgnoreCompletion(spec, p + n0);
    ChecksKeepPrefix(spec, false, p, n0);
    var d0 := DatabaseChecks(spec, false, v0);
    ChecksIgnoreCompletion(spec, p + v0);
    ChecksKeepPrefix(spec, false, p, v0);
    ChecksIgnoreCompletion(spec, p + d0);
    ChecksKeepPrefix(spec, false, p, d0);
  }

  /**
   * The rule behind each violation, stated on its own: whether `spec` breaks
   * it. Apart from "type is required", no rule depends on the status.
   */
  predicate Breaks(spec: Spec, isCompleted: bool, v: Violation) {
    match v
    case TypeRequired => isCompleted && spec.itemType == ""
    case NotAccepted(ItemType) => spec.itemType != "" && !Member(spec.itemType, AcceptedOptionTypes)
    case NotAccepted(ButtonType) => spec.buttonType != "" && !Member(spec.buttonType, AcceptedButtonTypes)
    case NotAccepted(Action) => spec.action != "" && !Member(spec.action, AcceptedActionTypes)
    case NotAccepted(DataType) => spec.dataType != "" && !Member(spec.dataType, AcceptedDataTypes)
    case NotAccepted(_) => false
    case TooLong(Name) => |spec.name| > MaxNameLength
    case TooLong(NameTrans) => |spec.nameTrans| > MaxNameTransLength
    case TooLong(OtherType) => |spec.otherType| > MaxOtherTypeLength
    case TooLong(NavigationNote) => |spec.navigationNote| > MaxNavigationNoteLength
    case TooLong(Format) => |spec.format| > MaxFormatLength
    case TooLong(DefaultValue) => |spec.defaultValue| > MaxDefaultValueLength
    case TooLong(ValidationNote) => |spec.validationNote| > MaxValidationNoteLength
    case TooLong(TableName) => |spec.tableName| > MaxTableNameLength
    case TooLong(ColumnName) => |spec.columnName| > MaxColumnNameLength
    case TooLong(DatabaseNote) => |spec.databaseNote| > MaxDatabaseNoteLength
    case TooLong(Description) => |spec.description| > MaxDescriptionLength
    case TooLong(_) => false
    case NegativeMinLength => spec.minLength.Some? && spec.minLength.value < 0
    case NegativeMaxLength => spec.maxLength.Some? && spec.maxLength.value < 0
    case MinNotBelowMax =>
      spec.minLength.Some? && spec.maxLength.Some? && spec.minLength.value >= spec.maxLength.value
  }

  lemma TypeMembers(spec: Spec, c: bool, errors: seq<Violation>, w: Violation)
    ensures w in TypeChecks(spec, c, errors)
            <==> w in errors || (w in {TypeRequired, NotAccepted(ItemType)} && Breaks(spec, c, w))
  {
  }

  lemma ItemMembers(spec: Spec, c: bool, errors: seq<Violation>, w: Violation)
    ensures w in ItemChecks(spec, c, errors)
            <==> w in errors || (w in {TooLong(Name), TooLong(NameTrans), NotAccepted(ButtonType), TooLong(OtherType)}
                                 && Breaks(spec, c, w))
  {
  }

  lemma NavigationMembers(spec: Spec, c: bool, errors: seq<Violation>, w: Violation)
    ensures w in NavigationChecks(spec, c, errors)
            <==> w in errors || (w in {NotAccepted(Action), TooLong(NavigationNote)} && Breaks(spec, c, w))
  {
  }

  lemma ValidationMembers(spec: Spec, c: bool, errors: seq<Violation>, w: Violation)
    ensures w in ValidationChecks(spec, c, errors)
            <==> w in errors || (w in {NotAccepted(DataType), TooLong(Format), NegativeMinLength, NegativeMaxLength,
                                       MinNotBelowMax, TooLong(DefaultValue), TooLong(ValidationNote)}
                                 && Breaks(spec, c, w))
  {
  }

  lemma DatabaseMembers(spec: Spec, c: bool, errors: seq<Violation>, w: Violation)
    ensures w in DatabaseChecks(spec, c, errors)
            <==> w in errors || (w in {TooLong(TableName), TooLong(ColumnName), TooLong(DatabaseNote)}
                                 && Breaks(spec, c, w))
  {
  }

  /**
   * A violation is reported exactly when its rule is broken: the gates of the
   * table never hide a broken rule, and never report an unbroken one.
   */
  lemma ViolationsAreBrokenRules(spec: Spec, status: string, w: Violation)
    ensures w in Violations(spec, status) <==> Breaks(spec, status == StatusCompleted, w)
  {
    var c := status == StatusCompleted;
    var t := TypeChecks(spec, c, []);
    TypeMembers(spec, c, [], w);
    var i := ItemChecks(spec, c, t);
    ItemMembers(spec, c, t, w);
    var n := NavigationChecks(spec, c, i);
    NavigationMembers(spec, c, i, w);
    var v := ValidationChecks(spec, c, n);
    ValidationMembers(spec, c, n, w);
    DatabaseMembers(spec, c, v, w);
  }

  /**
   * With an empty type, `completed` opens the list with "type is required",
   * and `draft` reports nothing about the type.
   */
  lemma EmptyTypeMessages(spec: Spec)
    requires spec.itemType == ""
    ensures |Violations(spec, StatusCompleted)| > 0 && Violations(spec, StatusCompleted)[0] == TypeRequired
    ensures TypeRequired !in Violations(spec, StatusDraft)
    ensures NotAccepted(ItemType) !in Violations(spec, StatusDraft)
  {
    CompletedIsDraftPlusTypeRequired(spec);
    ViolationsAreBrokenRules(spec, StatusDraft, TypeRequired);
    ViolationsAreBrokenRules(spec, StatusDraft, NotAccepted(ItemType));
  }

  /** A non-empty type outside the accepted list is reported under every status, as the first message. */
  lemma UnknownTypeMessage(spec: Spec, status: string)
    requires spec.itemType != "" && !Member(spec.itemType, AcceptedOptionTypes)
    ensures |Violations(spec, status)| > 0 && Violations(spec, status)[0] == NotAccepted(ItemType)
  {
    var c := status == StatusCompleted;
    var p := [NotAccepted(ItemType)];
    assert TypeChecks(spec, c, []) == p + [];
    var i0 := ItemChecks(spec, c, []);
    ChecksKeepPrefix(spec, c, p, []);
    var n0 := NavigationChecks(spec, c, i0);
    ChecksKeepPrefix(spec, c, p, i0);
    var v0 := ValidationChecks(spec, c, n0);
    ChecksKeepPrefix(spec, c, p, n0);
    var d0 := DatabaseChecks(spec, c, v0);
    ChecksKeepPrefix(spec, c, p, v0);
    ChecksKeepPrefix(spec, c, p, d0);
  }

  /** Every status other than `completed` is checked exactly like `draft`. */
  lemma OtherStatusesAsDraft(spec: Spec, status: string)
    requires status != StatusCompleted
    ensures Violations(spec, status) == Violations(spec, StatusDraft)
  {
  }

  // --------------------------------------------------------- content emptiness

  /** IsSpecContentEmpty: nil, or all 19 content fields empty or absent. */
  predicate IsSpecContentEmpty(spec: Option<Spec>) {
    match spec
    case None => true
    case Some(s) =>
      s.name == "" && s.nameTrans == "" && s.itemType == "" && s.buttonType == ""
      && s.otherType == "" && s.action == "" && s.linkedFrameId == ""
      && s.navigationNote == "" && s.dataType == "" && s.required.None?
      && s.format == "" && s.minLength.None? && s.maxLength.None?
      && s.defaultValue == "" && s.validationNote == "" && s.tableName == ""
      && s.columnName == "" && s.databaseNote == "" && s.description == ""
  }

  /** A spec has no content exactly when every content field is unset. */
  lemma ContentEmptyIffAllUnset(s: Spec)
    ensures IsSpecContentEmpty(Some(s)) <==> forall f: ContentField :: Content(s, f) == Unset(f)
  {
    if IsSpecContentEmpty(Some(s)) {
      EmptyContentIsAllUnset(s);
    }
    if forall f: ContentField :: Content(s, f) == Unset(f) {
      AllUnsetIsEmptyContent(s);
    }
  }

  lemma EmptyContentIsAllUnset(s: Spec)
    requires IsSpecContentEmpty(Some(s))
    ensures forall f: ContentField :: Content(s, f) == Unset(f)
  {
  }

  lemma AllUnsetIsEmptyContent(s: Spec)
    requires forall f: ContentField :: Content(s, f) == Unset(f)
    ensures IsSpecContentEmpty(Some(s))
  {
    UnsetItemFields(s);
    UnsetNavigationFields(s);
    UnsetValidationFields(s);
    UnsetDatabaseFields(s);
    assert Content(s, Required) == Unset(Required);
    assert Content(s, MinLength) == Unset(MinLength);
    assert Content(s, MaxLength) == Unset(MaxLength);
  }

  lemma UnsetItemFields(s: Spec)
    requires forall f: ContentField :: Content(s, f) == Unset(f)
    ensures s.name == "" && s.nameTrans == "" && s.itemType == "" && s.buttonType == "" && s.otherType == ""
  {
    assert Content(s, Name) == Unset(Name);
    assert Content(s, NameTrans) == Unset(NameTrans);
    assert Content(s, ItemType) == Unset(ItemType);
    assert Content(s, ButtonType) == Unset(ButtonType);
    assert Content(s, OtherType) == Unset(OtherType);
  }

  lemma UnsetNavigationFields(s: Spec)
    requires forall f: ContentField :: Content(s, f) == Unset(f)
    ensures s.action == "" && s.linkedFrameId == "" && s.navigationNote == "" && s.dataType == ""
  {
    assert Content(s, Action) == Unset(Action);
    assert Content(s, LinkedFrameId) == Unset(LinkedFrameId);
    assert Content(s, NavigationNote) == Unset(NavigationNote);
    assert Content(s, DataType) == Unset(DataType);
  }

  lemma UnsetValidationFields(s: Spec)
    requires forall f: ContentField :: Content(s, f) == Unset(f)
    ensures s.format == "" && s.defaultValue == "" && s.validationNote == "" && s.tableName == ""
  {
    assert Content(s, Format) == Unset(Format);
    assert Content(s, DefaultValue) == Unset(DefaultValue);
    assert Content(s, ValidationNote) == Unset(ValidationNote);
    assert Content(s, TableName) == Unset(TableName);
  }

  lemma UnsetDatabaseFields(s: Spec)
    requires forall f: ContentField :: Content(s, f) == Unset(f)
    ensures s.columnName == "" && s.databaseNote == "" && s.description == ""
  {
    assert Content(s, ColumnName) == Unset(ColumnName);
    assert Content(s, DatabaseNote) == Unset(DatabaseNote);
    assert Content(s, Description) == Unset(Description);
  }

  /** The structural fields (No, DesignItemName, NodeLinkID, SectionLinkID, IsReviewed) play no part. */
  lemma ContentEmptinessIgnoresStructure(s: Spec, no: string, itemName: string, nodeLinkId: string,
                                         sectionLinkId: string, isReviewed: Option<bool>)
    ensures IsSpecContentEmpty(Some(s))
            == IsSpecContentEmpty(Some(s.(no := no, designItemName := itemName, nodeLinkId := nodeLinkId,
                                          sectionLinkId := sectionLinkId, isReviewed := isReviewed)))
  {
  }

  /** A spec without content passes every rule as a draft. */
  lemma EmptyContentHasNoDraftViolations(s: Spec)
    requires IsSpecContentEmpty(Some(s))
    ensures Violations(s, StatusDraft) == []
  {
  }

  // ------------------------------------------------------- change detection

  /**
   * MapSpecForComparison: nil for nil, otherwise one entry per content field,
   * keyed here by the field itself (`JsonKey` gives the Go map's key); absent
   * pointer fields map to nil.
   */
  function MapSpecForComparison(spec: Option<Spec>): (r: Option<map<ContentField, FieldValue>>)
    ensures r.None? <==> spec.None?
    ensures r.Some? ==> forall f: ContentField :: f in r.value && r.value[f] == Content(spec.value, f)
  {
    match spec
    case None => None
    case Some(s) =>
      var m := map f | f in AllFields :: Content(s, f);
      assert forall f: ContentField :: f in m by {
        forall f: ContentField ensures f in m { AllFieldsComplete(f); }
      }
      Some(m)
  }

  /** CompareSpecs: two nils are equal, nil and non-nil differ, otherwise deep equality. */
  predicate CompareSpecs(current: Option<map<ContentField, FieldValue>>,
                         previous: Option<map<ContentField, FieldValue>>) {
    match (current, previous)
    case (None, None) => true
    case (Some(a), Some(b)) => a == b
    case _ => false
  }

  /** Comparing two projections is exactly comparing every content field. */
  lemma CompareSpecsIsSameContent(a: Spec, b: Spec)
    ensures CompareSpecs(MapSpecForComparison(Some(a)), MapSpecForComparison(Some(b)))
            <==> forall f: ContentField :: Content(a, f) == Content(b, f)
  {
    var ma, mb := MapSpecForComparison(Some(a)).value, MapSpecForComparison(Some(b)).value;
    if forall f: ContentField :: Content(a, f) == Content(b, f) {
      assert ma.Keys == mb.Keys;
      assert ma == mb;
    }
  }

  /** CompareSpecs on nil projections. */
  lemma CompareSpecsNil(a: Spec)
    ensures CompareSpecs(MapSpecForComparison(None), MapSpecForComparison(None))
    ensures !CompareSpecs(MapSpecForComparison(None), MapSpecForComparison(Some(a)))
    ensures !CompareSpecs(MapSpecForComparison(Some(a)), MapSpecForComparison(None))
  {
  }

  /** Specs differing only in their structural fields compare equal. */
  lemma CompareIgnoresStructure(a: Spec, no: string, itemName: string, nodeLinkId: string,
                                sectionLinkId: string, isReviewed: Option<bool>)
    ensures CompareSpecs(MapSpecForComparison(Some(a)),
                         MapSpecForComparison(Some(a.(no := no, designItemName := itemName, nodeLinkId := nodeLinkId,
                                                      sectionLinkId := sectionLinkId, isReviewed := isReviewed))))
  {
    CompareSpecsIsSameContent(a, a.(no := no, designItemName := itemName, nodeLinkId := nodeLinkId,
                                    sectionLinkId := sectionLinkId, isReviewed := isReviewed));
  }

  /** An absent `required` and a present `false` differ. */
  lemma RequiredNilIsNotFalse(a: Spec)
    requires a.required.None?
    ensures !CompareSpecs(MapSpecForComparison(Some(a)), MapSpecForComparison(Some(a.(required := Some(false)))))
  {
    CompareSpecsIsSameContent(a, a.(required := Some(false)));
    assert Content(a, Required) != Content(a.(required := Some(false)), Required);
  }

  // --------------------------------------------------------- status choice

  /** DetermineSpecStatus: none for no content, else completed if it passes, else draft with draft's errors. */
  function DetermineSpecStatus(spec: Option<Spec>, existingStatus: string): (r: (string, seq<Violation>))
    ensures r.0 in {StatusNone, StatusCompleted, StatusDraft}
    ensures r.0 == StatusNone <==> IsSpecContentEmpty(spec)
    ensures r.0 == StatusCompleted ==> r.1 == [] && Violations(spec.value, StatusCompleted) == []
    ensures r.1 != [] ==> r.0 == StatusDraft && r.1 == Violations(spec.value, StatusDraft)
  {
    if IsSpecContentEmpty(spec) then (StatusNone, [])
    else if Violations(spec.value, StatusCompleted) == [] then (StatusCompleted, [])
    else if Violations(spec.value, StatusDraft) == [] then (StatusDraft, [])
    else (StatusDraft, Violations(spec.value, StatusDraft))
  }

  /** The existing status never influences the decision. */
  lemma StatusIgnoresExisting(spec: Option<Spec>, e1: string, e2: string)
    ensures DetermineSpecStatus(spec, e1) == DetermineSpecStatus(spec, e2)
  {
  }

  /**
   * The decision in terms of the draft list alone: completed iff there is a
   * type and no draft violation; draft without errors iff the type is the only
   * thing missing; otherwise draft with the draft list.
   */
  lemma StatusByDraftList(s: Spec, existing: string)
    requires !IsSpecContentEmpty(Some(s))
    ensures DetermineSpecStatus(Some(s), existing).0 == StatusCompleted
            <==> s.itemType != "" && Violations(s, StatusDraft) == []
    ensures DetermineSpecStatus(Some(s), existing) == (StatusDraft, [])
            <==> s.itemType == "" && Violations(s, StatusDraft) == []
    ensures DetermineSpecStatus(Some(s), existing) == (StatusDraft, Violations(s, StatusDraft))
            <==> Violations(s, StatusDraft) != [] || s.itemType == ""
  {
    CompletedIsDraftPlusTypeRequired(s);
  }
}
