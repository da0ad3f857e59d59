/**
 Client-side validation of the prediction form (`validateAndSerialize`).

 The form is the sequence of its `(name, value)` entries, in document order.
 The loop copies every entry into a plain object, refusing an empty value;
 then `age`, `ap_hi` and `ap_lo` are read back and checked as numbers.
 JavaScript's `parseFloat` is a parameter `parse`, with `None` for `NaN`;
 every contract below holds whatever that parser does.
 */
module Validation {
  import opened Wrappers

  /** One form entry: the field's name and its raw string value. */
  type Field = (string, string)

  /** The three messages the validator can throw. */
  const EmptyFieldMsg: string := "Please fill all fields correctly."
  const AgeMsg: string := "Enter a valid age."
  const PressureMsg: string := "Diastolic must be <= Systolic."

  /** Outcome of validation: the serialized payload, or the thrown message. */
  datatype Validated = Ok(payload: map<string, string>) | Err(message: string)

  // ---------------------------------------------------------------------
  // Reference definitions, independent of the loop
  // ---------------------------------------------------------------------

  /** Some entry of the form has the empty string as its value. */
  predicate HasEmptyValue(fields: seq<Field>) {
    exists i :: 0 <= i < |fields| && fields[i].1 == ""
  }

  /** Some entry of the form is called `name`. */
  predicate Named(fields: seq<Field>, name: string) {
    exists i :: 0 <= i < |fields| && fields[i].0 == name
  }

  /** Entry `j` is the last one carrying its name. */
  predicate IsLastOfName(fields: seq<Field>, j: int) {
    && 0 <= j < |fields|
    && forall j' :: j < j' < |fields| ==> fields[j'].0 != fields[j].0
  }

  /** The value submitted under `name`: that of the LAST entry so called,
      `None` when there is no such entry. */
  function Submitted(fields: seq<Field>, name: string): Option<string>
  {
    if |fields| == 0 then None
    else if fields[|fields| - 1].0 == name then Some(fields[|fields| - 1].1)
    else Submitted(fields[..|fields| - 1], name)
  }

  /** `m` holds exactly the submitted names, each bound to its submitted value. */
  ghost predicate IsPayloadOf(m: map<string, string>, fields: seq<Field>) {
    forall k :: Submitted(fields, k) == (if k in m then Some(m[k]) else None)
  }

  /** The number `parse` reads from the value submitted under `name`;
      a missing field reads as `None`, as `parseFloat(undefined)` is `NaN`. */
  function NumberAt(fields: seq<Field>, name: string, parse: string -> Option<real>): Option<real>
  {
    match Submitted(fields, name)
    case None => None
    case Some(s) => parse(s)
  }

  /** The age check passes: a number strictly above zero. */
  predicate ValidAge(age: Option<real>) {
    age.Some? && age.value > 0.0
  }

  /** The blood-pressure check passes: both numbers, diastolic at most systolic. */
  predicate PressureOk(hi: Option<real>, lo: Option<real>) {
    hi.Some? && lo.Some? && lo.value <= hi.value
  }

  // ---------------------------------------------------------------------
  // The operation
  // ---------------------------------------------------------------------

  /** The entry loop from entry `i` on, with `data` the object built so far:
      an empty value stops it, otherwise each entry overwrites its key. */
  function Serialize(fields: seq<Field>, i: nat, data: map<string, string>): Option<map<string, string>>
    requires i <= |fields|
    decreases |fields| - i
  {
    if i == |fields| then Some(data)
    else if fields[i].1 == "" then None
    else Serialize(fields, i + 1, data[fields[i].0 := fields[i].1])
  }

  /** Reads `data.name` through `parse`; an absent key is `undefined`. */
  function Lookup(data: map<string, string>, name: string, parse: string -> Option<real>): Option<real>
  {
    if name in data then parse(data[name]) else None
  }

  /** `validateAndSerialize`: the three checks, in the source's order. */
  function Validate(fields: seq<Field>, parse: string -> Option<real>): (r: Validated)
    ensures r == Err(EmptyFieldMsg) <==> HasEmptyValue(fields)
    ensures !HasEmptyValue(fields) && !ValidAge(NumberAt(fields, "age", parse))
            ==> r == Err(AgeMsg)
    ensures !HasEmptyValue(fields) && ValidAge(NumberAt(fields, "age", parse))
            && !PressureOk(NumberAt(fields, "ap_hi", parse), NumberAt(fields, "ap_lo", parse))
            ==> r == Err(PressureMsg)
    ensures r.Ok? <==>
            && !HasEmptyValue(fields)
            && ValidAge(NumberAt(fields, "age", parse))
            && PressureOk(NumberAt(fields, "ap_hi", parse), NumberAt(fields, "ap_lo", parse))
    ensures r.Ok? ==> IsPayloadOf(r.payload, fields)
  {
    assert fields[..0] == [] && fields[0..] == fields;
    SerializeSpec(fields, 0, map[]);
    match Serialize(fields, 0, map[])
    case None => Err(EmptyFieldMsg)
    case Some(data) =>
      var age := Lookup(data, "age", parse);
      var apHi := Lookup(data, "ap_hi", parse);
      var apLo := Lookup(data, "ap_lo", parse);
      if age.None? || age.value <= 0.0 then Err(AgeMsg)
      else if apHi.None? || apLo.None? || apLo.value > apHi.value then Err(PressureMsg)
      else Ok(data)
  }

  // ---------------------------------------------------------------------
  // Lemmas
  // ---------------------------------------------------------------------

  /** The object built by the loop: it stops exactly on an empty value among
      the entries still to read, and otherwise holds the submitted values. */
  lemma {:induction false} SerializeSpec(fields: seq<Field>, i: nat, data: map<string, string>)
    requires i <= |fields|
    requires IsPayloadOf(data, fields[..i])
    ensures Serialize(fields, i, data).None? <==> HasEmptyValue(fields[i..])
    ensures Serialize(fields, i, data).Some? ==> IsPayloadOf(Serialize(fields, i, data).value, fields)
    decreases |fields| - i
  {
    if i == |fields| {
      assert fields[..i] == fields;
      assert !HasEmptyValue(fields[i..]) by { assert |fields[i..]| == 0; }
    } else if fields[i].1 == "" {
      assert fields[i..][0].1 == "";
    } else {
      var data' := data[fields[i].0 := fields[i].1];
      assert fields[..i + 1][..i] == fields[..i];
      forall k ensures Submitted(fields[..i + 1], k) == (if k in data' then Some(data'[k]) else None) {
        assert Submitted(fields[..i + 1], k)
            == if fields[i].0 == k then Some(fields[i].1) else Submitted(fields[..i], k);
      }
      SerializeSpec(fields, i + 1, data');
      assert HasEmptyValue(fields[i..]) <==> HasEmptyValue(fields[i + 1..]) by {
        if HasEmptyValue(fields[i..]) {
          var n :| 0 <= n < |fields[i..]| && fields[i..][n].1 == "";
          assert n != 0;
          assert fields[i + 1..][n - 1].1 == "";
        }
        if HasEmptyValue(fields[i + 1..]) {
          var n :| 0 <= n < |fields[i + 1..]| && fields[i + 1..][n].1 == "";
          assert fields[i..][n + 1].1 == "";
        }
      }
    }
  }

  /** The value submitted under a name is that of its last entry, so a later
      duplicate overwrites an earlier one. */
  lemma {:induction false} LastEntryWins(fields: seq<Field>, j: int)
    requires IsLastOfName(fields, j)
    ensures Submitted(fields, fields[j].0) == Some(fields[j].1)
    decreases |fields|
  {
    if j < |fields| - 1 {
      var init := fields[..|fields| - 1];
      assert fields[|fields| - 1].0 != fields[j].0;
      assert IsLastOfName(init, j) by {
        forall j' | j < j' < |init| ensures init[j'].0 != init[j].0 {
          assert init[j'] == fields[j'];
        }
      }
      LastEntryWins(init, j);
      assert init[j] == fields[j];
    }
  }

  /** A name has a submitted value exactly when some entry carries it. */
  lemma {:induction false} SubmittedIffNamed(fields: seq<Field>, name: string)
    ensures Submitted(fields, name).Some? <==> Named(fields, name)
    decreases |fields|
  {
    if |fields| > 0 && fields[|fields| - 1].0 != name {
      var init := fields[..|fields| - 1];
      SubmittedIffNamed(init, name);
      if Named(fields, name) {
        var i :| 0 <= i < |fields| && fields[i].0 == name;
        assert init[i].0 == name;
      }
      if Named(init, name) {
        var i :| 0 <= i < |init| && init[i].0 == name;
        assert fields[i].0 == name;
      }
    } else if |fields| > 0 {
      assert fields[|fields| - 1].0 == name;
    }
  }

  /** On success the payload has one key per submitted name and no other,
      and each entry that is the last of its name gives its value unchanged. */
  lemma {:induction false} PayloadContents(fields: seq<Field>, parse: string -> Option<real>)
    requires Validate(fields, parse).Ok?
    ensures forall k :: k in Validate(fields, parse).payload <==> Named(fields, k)
    ensures forall j :: IsLastOfName(fields, j) ==>
              fields[j].0 in Validate(fields, parse).payload
              && Validate(fields, parse).payload[fields[j].0] == fields[j].1
  {
    var m := Validate(fields, parse).payload;
    forall k ensures k in m <==> Named(fields, k) {
      assert Submitted(fields, k) == (if k in m then Some(m[k]) else None);
      SubmittedIffNamed(fields, k);
    }
    forall j | IsLastOfName(fields, j)
      ensures fields[j].0 in m && m[fields[j].0] == fields[j].1
    {
      assert Submitted(fields, fields[j].0) == (if fields[j].0 in m then Some(m[fields[j].0]) else None);
      LastEntryWins(fields, j);
    }
  }
}
