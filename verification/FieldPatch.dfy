/**
 Saving in frontend/src/app/document-workbench.tsx: a form is collected into normalized values, the
 fields that differ from the record become the patch, and the patch is applied to the record.
 */
module FieldPatch {
  import opened Text
  import opened Strings

  datatype DataType = PlainType | NumberType | IntegerType | BooleanType | DateType

  datatype Field = Field(name: string, dataType: DataType, required: bool, primary: bool, writable: bool)

  datatype Number = NotANumber | Infinite(positive: bool) | Finite(value: real)

  datatype Value = Absent | TextValue(shown: string) | NumberValue(number: Number)

  type Record = map<string, Value>

  /** `Number(text)`, `String(number)` and `toUpperCase`. */
  datatype Conversions = Conversions(parse: string -> Number, show: Number -> string, upper: string -> string)

  /** A number that was read, printed and read again is the same number. */
  ghost predicate NumbersLawful(k: Conversions) {
    forall t :: k.parse(t).NotANumber? || k.parse(Trim(k.show(k.parse(t)), ScriptWhitespace)) == k.parse(t)
  }

  /** A text in upper case and its beginnings stay as they are, and no white space appears at the ends. */
  ghost predicate UpperLawful(upper: string -> string) {
    && (forall t, n: nat :: n <= |upper(t)| ==> upper(upper(t)[..n]) == upper(t)[..n])
    && (forall t :: Tight(t, ScriptWhitespace) ==> Tight(upper(t), ScriptWhitespace))
  }

  /** No text grows; this holds of ASCII letters, but not of a letter like the German sharp s. */
  ghost predicate Compact(upper: string -> string) {
    forall t :: |upper(t)| <= |t|
  }

  /** What is asked of ECMAScript's conversions. */
  ghost predicate Lawful(k: Conversions) {
    NumbersLawful(k) && UpperLawful(k.upper)
  }

  datatype FieldChange = FieldChange(field: Field, before: Value, after: Value)

  // Values

  function Display(k: Conversions, v: Value): string {
    match v
    case Absent => ""
    case TextValue(shown) => shown
    case NumberValue(n) => k.show(n)
  }

  predicate IsNumeric(f: Field) {
    f.dataType.NumberType? || f.dataType.IntegerType?
  }

  predicate Truthy(t: string) {
    t == "Y" || t == "true" || t == "1"
  }

  function UpperChar(c: char): char {
    if 'a' <= c <= 'z' then (c as int - 32) as char else c
  }

  function UpperCase(s: string): (r: string)
    ensures |r| == |s|
  {
    seq(|s|, i requires 0 <= i < |s| => UpperChar(s[i]))
  }

  predicate IsCurrency(f: Field) {
    f.name == "Currency" || f.name == "DocCur"
  }

  function NormalizeValue(k: Conversions, f: Field, v: Value): Value {
    var t := Trim(Display(k, v), ScriptWhitespace);
    if IsNumeric(f) then NumberValue(k.parse(t))
    else if f.dataType.BooleanType? then TextValue(if Truthy(t) then "Y" else "N")
    else if IsCurrency(f) then TextValue(k.upper(t))
    else TextValue(t)
  }

  /** `initialValue` of a stored value, not of a new record. */
  function InitialValue(k: Conversions, f: Field, v: Value): string {
    var t := Display(k, v);
    if f.dataType.DateType? then (if |t| <= 10 then t else t[..10])
    else if f.dataType.BooleanType? then (if Truthy(t) then "Y" else "N")
    else t
  }

  /** `!==`: NaN differs from itself. */
  predicate Differs(a: Value, b: Value) {
    a != b || a == NumberValue(NotANumber)
  }

  // Collecting, diffing, patching

  /** What the form contributes for one field, if anything. */
  function Collected(k: Conversions, form: map<string, string>, f: Field, creating: bool): Option<Value> {
    if !f.writable || (f.primary && !creating) then None
    else if f.dataType.BooleanType? then Some(TextValue(if f.name in form then "Y" else "N"))
    else if f.name !in form then None
    else
      var t := Trim(form[f.name], ScriptWhitespace);
      if creating && t == "" && !f.required then None else Some(NormalizeValue(k, f, TextValue(t)))
  }

  function CollectAll(k: Conversions, form: map<string, string>, fields: seq<Field>, creating: bool): Record {
    if fields == [] then map[] else
    var n := |fields| - 1;
    var data := CollectAll(k, form, fields[..n], creating);
    match Collected(k, form, fields[n], creating)
    case Some(v) => data[fields[n].name := v]
    case None => data
  }

  lemma CollectSnoc(k: Conversions, form: map<string, string>, fields: seq<Field>, i: nat, creating: bool)
    requires i < |fields|
    ensures CollectAll(k, form, fields[..i + 1], creating)
            == var data := CollectAll(k, form, fields[..i], creating);
               match Collected(k, form, fields[i], creating)
               case Some(v) => data[fields[i].name := v]
               case None => data
  {
    assert fields[..i + 1][..i] == fields[..i];
  }

  method CollectFields(k: Conversions, form: map<string, string>, fields: seq<Field>, creating: bool)
    returns (data: Record)
    ensures data == CollectAll(k, form, fields, creating)
  {
    data := map[];
    for i := 0 to |fields|
      invariant data == CollectAll(k, form, fields[..i], creating)
    {
      var f := fields[i];
      CollectSnoc(k, form, fields, i, creating);
      if !f.writable || (f.primary && !creating) {
        continue;
      }
      if f.dataType.BooleanType? {
        data := data[f.name := TextValue(if f.name in form then "Y" else "N")];
        continue;
      }
      if f.name !in form {
        continue;
      }
      var value := Trim(form[f.name], ScriptWhitespace);
      if creating && value == "" && !f.required {
        continue;
      }
      data := data[f.name := NormalizeValue(k, f, TextValue(value))];
    }
    assert fields[..|fields|] == fields;
  }

  function Stored(record: Record, name: string): Value {
    if name in record then record[name] else Absent
  }

  function BeforeOf(k: Conversions, f: Field, record: Record): Value {
    NormalizeValue(k, f, TextValue(InitialValue(k, f, Stored(record, f.name))))
  }

  function FieldChanges(k: Conversions, data: Record, fields: seq<Field>, record: Record, creating: bool)
    : seq<FieldChange>
  {
    if fields == [] then [] else
    var n := |fields| - 1;
    var f, earlier := fields[n], FieldChanges(k, data, fields[..n], record, creating);
    if f.name in data && (creating || Differs(BeforeOf(k, f, record), data[f.name]))
    then earlier + [FieldChange(f, BeforeOf(k, f, record), data[f.name])] else earlier
  }

  /** `Object.fromEntries` of the changes. */
  function Patch(changes: seq<FieldChange>): Record {
    if changes == [] then map[] else
    var n := |changes| - 1;
    Patch(changes[..n])[changes[n].field.name := changes[n].after]
  }

  predicate DistinctFields(fields: seq<Field>) {
    forall i, j :: 0 <= i < j < |fields| ==> fields[i].name != fields[j].name
  }

  lemma {:induction false} CollectedValues(
    k: Conversions, form: map<string, string>, fields: seq<Field>, creating: bool, i: nat)
    requires DistinctFields(fields) && i < |fields|
    ensures var data := CollectAll(k, form, fields, creating);
            match Collected(k, form, fields[i], creating)
            case Some(v) => fields[i].name in data && data[fields[i].name] == v
            case None => fields[i].name !in data
  {
    var n := |fields| - 1;
    if i < n {
      CollectedValues(k, form, fields[..n], creating, i);
    } else {
      NotCollected(k, form, fields[..n], creating, fields[n].name);
    }
  }

  lemma {:induction false} NotCollected(
    k: Conversions, form: map<string, string>, fields: seq<Field>, creating: bool, name: string)
    requires forall i :: 0 <= i < |fields| ==> fields[i].name != name
    ensures name !in CollectAll(k, form, fields, creating)
  {
    if fields != [] {
      NotCollected(k, form, fields[..|fields| - 1], creating, name);
    }
  }

  // What the form says

  /** A field is collected exactly when it may be written and the form has something to say about it. */
  lemma CollectedIff(k: Conversions, form: map<string, string>, fields: seq<Field>, creating: bool, i: nat)
    requires DistinctFields(fields) && i < |fields|
    ensures var f := fields[i];
            f.name in CollectAll(k, form, fields, creating) <==>
              && f.writable && (creating || !f.primary)
              && (f.dataType.BooleanType?
                  || (f.name in form
                      && (!creating || f.required || !AllBlank(form[f.name], ScriptWhitespace))))
  {
    CollectedValues(k, form, fields, creating, i);
    if fields[i].name in form {
      BlankTrimsEmpty(form[fields[i].name], ScriptWhitespace);
    }
  }

  /** What a form text stands for: what is between its blanks, read by the field's type. */
  lemma NormalizedIs(k: Conversions, f: Field, before: string, s: string, behind: string)
    requires AllBlank(before, ScriptWhitespace) && AllBlank(behind, ScriptWhitespace) && Tight(s, ScriptWhitespace)
    ensures var v := NormalizeValue(k, f, TextValue(before + s + behind));
            match f.dataType
            case NumberType => v == NumberValue(k.parse(s))
            case IntegerType => v == NumberValue(k.parse(s))
            case BooleanType => v == TextValue(if s in {"Y", "true", "1"} then "Y" else "N")
            case _ => v == TextValue(if f.name in {"Currency", "DocCur"} then k.upper(s) else s)
  {
    TrimIs(before, s, behind, ScriptWhitespace);
  }

  /** What is collected for a field that is no check box: its form text, normalized. */
  lemma CollectedIs(
    k: Conversions, form: map<string, string>, fields: seq<Field>, creating: bool, i: nat)
    requires DistinctFields(fields) && i < |fields| && fields[i].name in CollectAll(k, form, fields, creating)
    ensures var f, data := fields[i], CollectAll(k, form, fields, creating);
            if f.dataType.BooleanType? then data[f.name] == TextValue(if f.name in form then "Y" else "N")
            else f.name in form && data[f.name] == NormalizeValue(k, f, TextValue(form[f.name]))
  {
    CollectedValues(k, form, fields, creating, i);
    if fields[i].name in form {
      TrimIdempotent(form[fields[i].name], ScriptWhitespace);
    }
  }

  /** What the form starts from: the stored text, of a date its first ten characters, of a flag Y or N. */
  lemma InitialIs(k: Conversions, f: Field, v: Value)
    ensures var text := match v { case Absent => "" case TextValue(shown) => shown case NumberValue(n) => k.show(n) };
            match f.dataType
            case DateType => InitialValue(k, f, v) == if |text| > 10 then text[..10] else text
            case BooleanType => InitialValue(k, f, v) == if text in {"Y", "true", "1"} then "Y" else "N"
            case _ => InitialValue(k, f, v) == text
  {
  }

  // The changes listed

  /** Listed are the collected fields, all of them for a new record and else those that differ, with both values. */
  lemma {:induction false} ChangesListed(
    k: Conversions, data: Record, fields: seq<Field>, record: Record, creating: bool, change: FieldChange)
    ensures change in FieldChanges(k, data, fields, record, creating) <==>
              && change.field in fields && change.field.name in data
              && change.after == data[change.field.name]
              && change.before
                 == NormalizeValue(k, change.field, TextValue(InitialValue(k, change.field,
                      if change.field.name in record then record[change.field.name] else Absent)))
              && (creating || change.before != change.after || change.after == NumberValue(NotANumber))
  {
    if fields != [] {
      var n := |fields| - 1;
      ChangesListed(k, data, fields[..n], record, creating, change);
      assert fields == fields[..n] + [fields[n]];
    }
  }

  // The patch

  lemma PatchSnoc(changes: seq<FieldChange>, c: FieldChange)
    ensures Patch(changes + [c]) == Patch(changes)[c.field.name := c.after]
  {
    assert (changes + [c])[..|changes|] == changes;
  }

  /** Some field of that name is collected and differs from the record. */
  ghost predicate Changed(k: Conversions, data: Record, fields: seq<Field>, record: Record, name: string) {
    && name in data
    && exists i :: 0 <= i < |fields| && fields[i].name == name && Differs(BeforeOf(k, fields[i], record), data[name])
  }

  lemma ChangedSnoc(k: Conversions, data: Record, fields: seq<Field>, record: Record, name: string)
    requires fields != []
    ensures var n := |fields| - 1;
            Changed(k, data, fields, record, name) <==>
              (Changed(k, data, fields[..n], record, name)
               || (fields[n].name == name && name in data && Differs(BeforeOf(k, fields[n], record), data[name])))
  {
    var n := |fields| - 1;
    assert forall i :: 0 <= i < n ==> fields[..n][i] == fields[i];
  }

  /** The patch holds the new value of a field exactly when the field is listed. */
  lemma {:induction false} PatchHolds(k: Conversions, data: Record, fields: seq<Field>, record: Record, name: string)
    ensures var patch := Patch(FieldChanges(k, data, fields, record, false));
            && (name in patch <==> Changed(k, data, fields, record, name))
            && (name in patch ==> patch[name] == data[name])
  {
    if fields != [] {
      var n := |fields| - 1;
      var f, earlier := fields[n], FieldChanges(k, data, fields[..n], record, false);
      PatchHolds(k, data, fields[..n], record, name);
      ChangedSnoc(k, data, fields, record, name);
      if f.name in data && Differs(BeforeOf(k, f, record), data[f.name]) {
        PatchSnoc(earlier, FieldChange(f, BeforeOf(k, f, record), data[f.name]));
      }
    }
  }

  lemma {:induction false} NoChangesIff(k: Conversions, data: Record, fields: seq<Field>, record: Record)
    ensures FieldChanges(k, data, fields, record, false) == []
            <==> forall i :: 0 <= i < |fields| && fields[i].name in data ==>
                   !Differs(BeforeOf(k, fields[i], record), data[fields[i].name])
  {
    if fields != [] {
      var n := |fields| - 1;
      NoChangesIff(k, data, fields[..n], record);
      assert forall i :: 0 <= i < n ==> fields[..n][i] == fields[i];
    }
  }

  /** A collected value that a second look at the saved record reads back unchanged. */
  predicate Settles(f: Field, v: Value) {
    if IsNumeric(f) then v != NumberValue(NotANumber)
    else if f.dataType.DateType? then v.TextValue? && |v.shown| <= 10
    else true
  }

  /** The laws of upper-casing hold of ASCII letters. */
  lemma AsciiUpperLawful()
    ensures UpperLawful(UpperCase) && Compact(UpperCase)
  {
    forall t, n: nat | n <= |UpperCase(t)|
      ensures UpperCase(UpperCase(t)[..n]) == UpperCase(t)[..n]
    {
    }
  }

  lemma UpperKeepsTrimmed(k: Conversions, s: string)
    requires UpperLawful(k.upper)
    ensures k.upper(k.upper(s)) == k.upper(s)
    ensures Trim(s, ScriptWhitespace) == s ==> Trim(k.upper(s), ScriptWhitespace) == k.upper(s)
  {
    TrimFixpointIff(s, ScriptWhitespace);
    TrimFixpointIff(k.upper(s), ScriptWhitespace);
    assert k.upper(s)[..|k.upper(s)|] == k.upper(s);
  }

  /** Trimming the beginning of a trimmed text only shortens it at the end. */
  lemma {:induction false} TrimEndIsPrefix(s: string) returns (n: nat)
    ensures n <= |s| && TrimEnd(s, ScriptWhitespace) == s[..n]
  {
    n := |s|;
    if s != "" && ScriptWhitespace(s[|s| - 1]) {
      n := TrimEndIsPrefix(s[..|s| - 1]);
    }
  }

  /** The first ten characters of a currency code, normalized, are ten at most. */
  lemma ShortCodeStaysShort(k: Conversions, t: string)
    requires UpperLawful(k.upper) && Tight(t, ScriptWhitespace) && |k.upper(t)| > 10
    ensures |k.upper(Trim(k.upper(t)[..10], ScriptWhitespace))| <= 10
  {
    var s := k.upper(t)[..10];
    assert Tight(k.upper(t), ScriptWhitespace);
    assert TrimStart(s, ScriptWhitespace) == s;
    var n := TrimEndIsPrefix(s);
    assert s[..n] == k.upper(t)[..n];
  }

  /** What `fieldChanges` reads back for a field whose stored value is `v`. */
  function ReadBack(k: Conversions, f: Field, v: Value): Value {
    NormalizeValue(k, f, TextValue(InitialValue(k, f, v)))
  }

  lemma NumberReadsBack(k: Conversions, f: Field, t: string)
    requires Lawful(k) && IsNumeric(f)
    ensures var v := NormalizeValue(k, f, TextValue(t));
            !Differs(ReadBack(k, f, v), v) <==> Settles(f, v)
  {
    var n := k.parse(Trim(t, ScriptWhitespace));
    assert NormalizeValue(k, f, TextValue(t)) == NumberValue(n);
  }

  lemma FlagReadsBack(k: Conversions, f: Field, t: string)
    requires f.dataType.BooleanType?
    ensures var v := NormalizeValue(k, f, TextValue(t));
            ReadBack(k, f, v) == v
  {
    TrimFixpointIff("Y", ScriptWhitespace);
    TrimFixpointIff("N", ScriptWhitespace);
  }

  /** Normalizing a normalized text changes nothing. */
  lemma TextSettles(k: Conversions, f: Field, t: string)
    requires UpperLawful(k.upper) && !IsNumeric(f) && !f.dataType.BooleanType?
    ensures var v := NormalizeValue(k, f, TextValue(t));
            v.TextValue? && NormalizeValue(k, f, v) == v
  {
    var trimmed := Trim(t, ScriptWhitespace);
    TrimIdempotent(t, ScriptWhitespace);
    UpperKeepsTrimmed(k, trimmed);
  }

  lemma TextReadsBack(k: Conversions, f: Field, t: string)
    requires UpperLawful(k.upper) && !IsNumeric(f) && !f.dataType.BooleanType?
    ensures var v := NormalizeValue(k, f, TextValue(t));
            !Differs(ReadBack(k, f, v), v) <==> Settles(f, v)
  {
    var v := NormalizeValue(k, f, TextValue(t));
    TextSettles(k, f, t);
    if Settles(f, v) {
      assert InitialValue(k, f, v) == v.shown;
    } else if IsCurrency(f) {
      TrimTight(t, ScriptWhitespace);
      ShortCodeStaysShort(k, Trim(t, ScriptWhitespace));
    } else {
      UnsettledTextDiffers(k, f, v, v);
    }
  }

  /** A date read back never has more than ten characters. */
  lemma UnsettledTextDiffers(k: Conversions, f: Field, stored: Value, v: Value)
    requires f.dataType.DateType? && v.TextValue? && |v.shown| > 10
    requires IsCurrency(f) ==> Compact(k.upper)
    ensures Differs(ReadBack(k, f, stored), v)
  {
    var back := ReadBack(k, f, stored);
    assert |InitialValue(k, f, stored)| <= 10;
    assert back.TextValue? && |back.shown| <= 10;
  }

  /** Normalizing is idempotent through the record, exactly for the values that settle. */
  lemma NormalizeIdempotentIff(k: Conversions, f: Field, t: string)
    requires Lawful(k)
    ensures var v := NormalizeValue(k, f, TextValue(t));
            !Differs(ReadBack(k, f, v), v) <==> Settles(f, v)
  {
    if IsNumeric(f) {
      NumberReadsBack(k, f, t);
    } else if f.dataType.BooleanType? {
      FlagReadsBack(k, f, t);
    } else {
      TextReadsBack(k, f, t);
    }
  }

  /** A value that does not settle is listed against every record. */
  lemma UnsettledAlwaysDiffers(k: Conversions, f: Field, t: string, record: Record)
    requires Compact(k.upper) && !Settles(f, NormalizeValue(k, f, TextValue(t)))
    ensures Differs(BeforeOf(k, f, record), NormalizeValue(k, f, TextValue(t)))
  {
    if !IsNumeric(f) {
      UnsettledTextDiffers(k, f, Stored(record, f.name), NormalizeValue(k, f, TextValue(t)));
    }
  }

  lemma CollectedIsNormalized(k: Conversions, form: map<string, string>, f: Field, creating: bool) returns (t: string)
    requires Collected(k, form, f, creating).Some?
    ensures Collected(k, form, f, creating).value == NormalizeValue(k, f, TextValue(t))
  {
    if f.dataType.BooleanType? {
      TrimFixpointIff("Y", ScriptWhitespace);
      TrimFixpointIff("N", ScriptWhitespace);
      t := if f.name in form then "Y" else "N";
    } else {
      t := Trim(form[f.name], ScriptWhitespace);
    }
  }

  lemma FieldSettled(k: Conversions, form: map<string, string>, fields: seq<Field>, record: Record, i: nat)
    requires Lawful(k) && DistinctFields(fields) && i < |fields|
    requires fields[i].name in CollectAll(k, form, fields, false)
    ensures var data := CollectAll(k, form, fields, false);
            var saved := record + Patch(FieldChanges(k, data, fields, record, false));
            !Differs(BeforeOf(k, fields[i], saved), data[fields[i].name])
            <==> (Differs(BeforeOf(k, fields[i], record), data[fields[i].name])
                  ==> Settles(fields[i], data[fields[i].name]))
  {
    var data := CollectAll(k, form, fields, false);
    var f := fields[i];
    var patch := Patch(FieldChanges(k, data, fields, record, false));
    var saved := record + patch;
    CollectedValues(k, form, fields, false, i);
    var t := CollectedIsNormalized(k, form, f, false);
    PatchHolds(k, data, fields, record, f.name);
    if f.name in patch {
      ChangedAtField(k, data, fields, record, i);
      NormalizeIdempotentIff(k, f, t);
    } else {
      assert !Differs(BeforeOf(k, f, record), data[f.name]);
      assert Stored(saved, f.name) == Stored(record, f.name);
    }
  }

  /** With distinct names, a changed name is a changed field. */
  lemma ChangedAtField(k: Conversions, data: Record, fields: seq<Field>, record: Record, i: nat)
    requires DistinctFields(fields) && i < |fields| && Changed(k, data, fields, record, fields[i].name)
    ensures Differs(BeforeOf(k, fields[i], record), data[fields[i].name])
  {
    var j :| 0 <= j < |fields| && fields[j].name == fields[i].name
             && Differs(BeforeOf(k, fields[j], record), data[fields[i].name]);
    assert j == i;
  }

  /**
   Saving is finished in one round exactly when every changed number parses and every changed date has at
   most ten characters: then, and only then, the same form shows no changes against the record with the
   patch applied.
   */
  lemma SaveConvergesIff(k: Conversions, form: map<string, string>, fields: seq<Field>, record: Record)
    requires Lawful(k) && DistinctFields(fields)
    ensures var data := CollectAll(k, form, fields, false);
            var saved := record + Patch(FieldChanges(k, data, fields, record, false));
            FieldChanges(k, data, fields, saved, false) == []
            <==> forall i :: 0 <= i < |fields| && fields[i].name in data
                             && Differs(BeforeOf(k, fields[i], record), data[fields[i].name]) ==>
                   Settles(fields[i], data[fields[i].name])
  {
    var data := CollectAll(k, form, fields, false);
    var saved := record + Patch(FieldChanges(k, data, fields, record, false));
    NoChangesIff(k, data, fields, saved);
    forall i | 0 <= i < |fields| && fields[i].name in data
      ensures !Differs(BeforeOf(k, fields[i], saved), data[fields[i].name])
              <==> (Differs(BeforeOf(k, fields[i], record), data[fields[i].name])
                    ==> Settles(fields[i], data[fields[i].name]))
    {
      FieldSettled(k, form, fields, record, i);
    }
  }

  /** If upper-casing makes no text longer, this can be read off the form alone, whatever the record holds. */
  lemma SaveConvergesByFormIff(k: Conversions, form: map<string, string>, fields: seq<Field>, record: Record)
    requires Lawful(k) && Compact(k.upper) && DistinctFields(fields)
    ensures var data := CollectAll(k, form, fields, false);
            var saved := record + Patch(FieldChanges(k, data, fields, record, false));
            FieldChanges(k, data, fields, saved, false) == []
            <==> forall i :: 0 <= i < |fields| && fields[i].name in data ==> Settles(fields[i], data[fields[i].name])
  {
    var data := CollectAll(k, form, fields, false);
    SaveConvergesIff(k, form, fields, record);
    forall i | 0 <= i < |fields| && fields[i].name in data && !Settles(fields[i], data[fields[i].name])
      ensures Differs(BeforeOf(k, fields[i], record), data[fields[i].name])
    {
      CollectedValues(k, form, fields, false, i);
      var t := CollectedIsNormalized(k, form, fields[i], false);
      UnsettledAlwaysDiffers(k, fields[i], t, record);
    }
  }
}
