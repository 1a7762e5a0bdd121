/** What a stored result says: the JSON text of each result the processor writes. */
module ResultTexts {
  import opened Json
  import opened JsonEnvelope
  import opened Options
  import opened CommandModel

  /** {"ok":true,"data":…} */
  function OkText(data: Wire): Wire {
    WObject([("ok", WAtom(Bool(true))), ("data", data)])
  }

  /** {"ok":false,"error":{"code":…,"message":…,"details":…}}, the details only if there are any. */
  function ErrorText(code: string, message: string, details: Option<Wire>): Wire {
    WObject([("ok", WAtom(Bool(false))), ("error", ErrorMember(code, message, details))])
  }

  function ErrorMember(code: string, message: string, details: Option<Wire>): Wire {
    var error := [("code", WAtom(Str(code))), ("message", WAtom(Str(message)))];
    WObject(if details.Some? then error + [("details", details.value)] else error)
  }

  /** The details of an error as its text carries them. */
  function Details(details: seq<(Key, Value)>): Option<Wire> {
    if details == [] then None else Some(Encode(Arr(details)))
  }

  lemma {:induction false} TwoMembers(a: string, x: Value, b: string, y: Value)
    ensures Encode(Arr([(StrKey(a), x), (StrKey(b), y)])) == WObject([(a, Encode(x)), (b, Encode(y))])
  {
    var fs := [(StrKey(a), x), (StrKey(b), y)];
    assert fs[0].0 != IntKey(0) && !IsList(fs);
    var ws := Encode(Arr(fs)).fields;
    assert ws[0] == (KeyText(fs[0].0), Encode(fs[0].1)) && ws[1] == (KeyText(fs[1].0), Encode(fs[1].1));
    assert ws == [ws[0], ws[1]];
  }

  lemma {:induction false} ThreeMembers(a: string, x: Value, b: string, y: Value, c: string, z: Value)
    ensures Encode(Arr([(StrKey(a), x), (StrKey(b), y), (StrKey(c), z)]))
         == WObject([(a, Encode(x)), (b, Encode(y)), (c, Encode(z))])
  {
    var fs := [(StrKey(a), x), (StrKey(b), y), (StrKey(c), z)];
    assert fs[0].0 != IntKey(0) && !IsList(fs);
    var ws := Encode(Arr(fs)).fields;
    assert ws[0] == (KeyText(fs[0].0), Encode(fs[0].1)) && ws[1] == (KeyText(fs[1].0), Encode(fs[1].1))
           && ws[2] == (KeyText(fs[2].0), Encode(fs[2].1));
    assert ws == [ws[0], ws[1], ws[2]];
  }

  /** A success carries the handler's data, as an object. */
  lemma {:induction false} OkWire(data: Value)
    requires (data.Arr? || data.Obj?) && WellFormed(data)
    ensures ResultWire(OkFields(data)) == OkText(Encode(PayloadObject(data)))
  {
    var shaped := if data.Arr? then Object(data.fields) else data;
    var fs := OkFields(data);
    var rs := ResultFields(fs);
    assert rs[0] == fs[0] && fs[0] == (StrKey("ok"), Atom(Bool(true)));
    assert rs[1].0 == StrKey("data");
    DataIsObject(data);
    assert rs == [(StrKey("ok"), Atom(Bool(true))), (StrKey("data"), rs[1].1)];
    TwoMembers("ok", Atom(Bool(true)), "data", rs[1].1);
  }

  /** Making an object of the data twice changes nothing more. */
  lemma {:induction false} DataIsObject(data: Value)
    requires (data.Arr? || data.Obj?) && WellFormed(data)
    ensures var shaped := if data.Arr? then Object(data.fields) else data;
            Encode(if shaped.Arr? then Object(shaped.fields) else shaped) == Encode(PayloadObject(data))
  {
    if data.Arr? {
      ObjectWellFormed(data.fields);
      assert IsList(data.fields) ==> NumericKeys(data.fields);
    }
  }

  /** An error carries its code and message, and details if there are any. */
  lemma {:induction false} ErrorWire(code: string, message: string, details: seq<(Key, Value)>)
    ensures ResultWire(ErrorFields(code, message, details)) == ErrorText(code, message, Details(details))
  {
    var fs := ErrorFields(code, message, details);
    assert fs[0].0 == StrKey("ok") && fs[1].0 == StrKey("error");
    assert ResultFields(fs) == fs;
    ErrorValue(code, message, details);
    TwoMembers("ok", Atom(Bool(false)), "error", fs[1].1);
  }

  lemma {:induction false} ErrorValue(code: string, message: string, details: seq<(Key, Value)>)
    ensures Encode(ErrorFields(code, message, details)[1].1) == ErrorMember(code, message, Details(details))
  {
    var x, y, z := Atom(Str(code)), Atom(Str(message)), Arr(details);
    var error := [(StrKey("code"), x), (StrKey("message"), y)];
    if details == [] {
      TwoMembers("code", x, "message", y);
    } else {
      assert error + [(StrKey("details"), z)] == [(StrKey("code"), x), (StrKey("message"), y), (StrKey("details"), z)];
      ThreeMembers("code", x, "message", y, "details", z);
    }
  }

  /** Replay takes a text to be a transient failure exactly if it is an error with that code. */
  lemma {:induction false} TransientIsCode(code: string, message: string, details: Option<Wire>)
    ensures IsTransient(ErrorText(code, message, details)) <==> code == "command.failed"
  {
    var w, e := ErrorText(code, message, details), ErrorMember(code, message, details);
    assert w.fields[1..] == [("error", e)];
    assert MemberIn(w.fields, "error") == MemberIn(w.fields[1..], "error") == Some(e);
    assert e.fields[0] == ("code", WAtom(Str(code)));
  }

  lemma {:induction false} SuccessIsNoFailure(data: Wire)
    ensures !IsTransient(OkText(data))
  {
    var w := OkText(data);
    assert w.fields[1..] == [("data", data)] && w.fields[1..][1..] == [];
    assert MemberIn(w.fields, "error") == MemberIn(w.fields[1..], "error") == MemberIn([], "error");
  }
}
