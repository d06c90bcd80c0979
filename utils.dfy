/**
 * The field helpers of the adapter (utils.go): flattening call-site fields
 * into a key/value map, and picking out the last error field.
 */
module Utils {
  import opened ZapCore

  /** The flat document shape: string keys to encoder values. */
  type Doc = map<string, Value>

  /** The keys that occur in a field list. */
  function KeysOf(fields: seq<Field>): set<string> {
    set f | f in fields :: f.key
  }

  /**
   * What a fresh map object encoder holds after every field, in order, has
   * added itself to it: a left fold in which each field writes its key.
   */
  function Flatten(fields: seq<Field>): (m: Doc)
    ensures m.Keys == KeysOf(fields)
    decreases |fields|
  {
    if fields == [] then map[]
    else
      var last := fields[|fields| - 1];
      Flatten(fields[..|fields| - 1])[last.key := last.written]
  }

  /** Field `i` is the last one in `fields` whose key is its own. */
  predicate LastWithItsKey(fields: seq<Field>, i: int) {
    0 <= i < |fields| && forall j :: i < j < |fields| ==> fields[j].key != fields[i].key
  }

  /** Last writer wins: each key holds the value the last field with that key wrote. */
  lemma {:induction false} FlattenLastWins(fields: seq<Field>, i: int)
    requires LastWithItsKey(fields, i)
    ensures fields[i].key in Flatten(fields)
    ensures Flatten(fields)[fields[i].key] == fields[i].written
    decreases |fields|
  {
    if i < |fields| - 1 {
      var init := fields[..|fields| - 1];
      assert LastWithItsKey(init, i) by {
        forall j | i < j < |init| ensures init[j].key != init[i].key {
          assert init[j] == fields[j];
        }
      }
      FlattenLastWins(init, i);
    }
  }

  /** Every key present has a last field that wrote it; `i` is that field. */
  lemma {:induction false} FlattenLastWriter(fields: seq<Field>, k: string) returns (i: int)
    requires k in Flatten(fields)
    ensures LastWithItsKey(fields, i) && fields[i].key == k
    ensures Flatten(fields)[k] == fields[i].written
    decreases |fields|
  {
    assert fields != [];
    var n := |fields| - 1;
    var init := fields[..n];
    assert Flatten(fields) == Flatten(init)[fields[n].key := fields[n].written];
    if fields[n].key == k {
      i := n;
    } else {
      i := FlattenLastWriter(init, k);
      assert fields[i] == init[i];
    }
  }

  /** Flattening a concatenation is flattening each part, the later part overriding. */
  lemma {:induction false} FlattenAppend(a: seq<Field>, b: seq<Field>)
    ensures Flatten(a + b) == Flatten(a) + Flatten(b)
    decreases |b|
  {
    if b == [] {
      assert a + b == a;
    } else {
      var init := b[..|b| - 1];
      assert (a + b)[..|a + b| - 1] == a + init;
      FlattenAppend(a, init);
    }
  }

  /**
   * fieldsToMap: feed every field to a fresh map object encoder, then copy
   * the encoder's map entry by entry into a new map. Dafny maps are values,
   * so the result shares nothing with the encoder.
   */
  method FieldsToMap(fields: seq<Field>) returns (m: Doc)
    ensures m == Flatten(fields)
  {
    var enc: Doc := map[];
    for i := 0 to |fields|
      invariant enc == Flatten(fields[..i])
    {
      assert fields[..i + 1][..i] == fields[..i];
      enc := enc[fields[i].key := fields[i].written];
    }
    assert fields[..|fields|] == fields;

    m := map[];
    var rest := enc.Keys;
    while rest != {}
      invariant rest <= enc.Keys
      invariant m.Keys == enc.Keys - rest
      invariant forall k :: k in m ==> m[k] == enc[k]
      decreases rest
    {
      var k :| k in rest;
      m := m[k := enc[k]];
      rest := rest - {k};
    }
  }

  /** What extractError yields: nil, the error found, or the panic of a failed type assertion. */
  datatype Extracted = NilError | Found(err: GoError) | AssertionPanic

  /** An ErrorType field whose Interface does not hold an error: `f.Interface.(error)` panics on it. */
  predicate BadErrorField(f: Field) {
    f.typ == ErrorType && !f.iface.IfaceError?
  }

  /** The second loop of extractError as a left fold over the fields. */
  function LastError(fields: seq<Field>): (r: Extracted)
    ensures r.Found? ==> exists f :: f in fields && f.typ == ErrorType && f.iface == IfaceError(r.err)
    decreases |fields|
  {
    if fields == [] then NilError
    else
      var prev := LastError(fields[..|fields| - 1]);
      var f := fields[|fields| - 1];
      if prev.AssertionPanic? then AssertionPanic
      else if f.typ != ErrorType then prev
      else if f.iface.IfaceError? then Found(f.iface.err)
      else AssertionPanic
  }

  /** Once the fold has panicked on a prefix, it has panicked on the whole list. */
  lemma {:induction false} PanicIsFinal(fields: seq<Field>, n: nat)
    requires n <= |fields| && LastError(fields[..n]).AssertionPanic?
    ensures LastError(fields).AssertionPanic?
    decreases |fields| - n
  {
    if n < |fields| {
      assert fields[..n + 1][..n] == fields[..n];
      PanicIsFinal(fields, n + 1);
    } else {
      assert fields[..n] == fields;
    }
  }

  /** extractError panics exactly when some ErrorType field does not hold an error. */
  lemma {:induction false} LastErrorPanicIff(fields: seq<Field>)
    ensures LastError(fields).AssertionPanic? <==> exists i :: 0 <= i < |fields| && BadErrorField(fields[i])
    decreases |fields|
  {
    if fields != [] {
      var init := fields[..|fields| - 1];
      LastErrorPanicIff(init);
      if exists i :: 0 <= i < |init| && BadErrorField(init[i]) {
        var i :| 0 <= i < |init| && BadErrorField(init[i]);
        assert BadErrorField(fields[i]);
      }
      if exists i :: 0 <= i < |fields| && BadErrorField(fields[i]) {
        var i :| 0 <= i < |fields| && BadErrorField(fields[i]);
        if i < |init| {
          assert BadErrorField(init[i]);
        }
      }
    }
  }

  /** extractError returns nil exactly when no field has ErrorType. */
  lemma {:induction false} LastErrorNilIff(fields: seq<Field>)
    ensures LastError(fields).NilError? <==> forall i :: 0 <= i < |fields| ==> fields[i].typ != ErrorType
    decreases |fields|
  {
    if fields != [] {
      var init := fields[..|fields| - 1];
      LastErrorNilIff(init);
      if LastError(fields).NilError? {
        forall i | 0 <= i < |fields| ensures fields[i].typ != ErrorType {
          if i < |init| {
            assert init[i] == fields[i];
          }
        }
      }
      if forall i :: 0 <= i < |fields| ==> fields[i].typ != ErrorType {
        forall i | 0 <= i < |init| ensures init[i].typ != ErrorType {
          assert init[i] == fields[i];
        }
      }
    }
  }

  /**
   * With no panicking field, extractError returns the error held by the last
   * ErrorType field.
   */
  lemma {:induction false} LastErrorIsLast(fields: seq<Field>, i: int)
    requires 0 <= i < |fields| && fields[i].typ == ErrorType && fields[i].iface.IfaceError?
    requires forall j :: i < j < |fields| ==> fields[j].typ != ErrorType
    requires forall j :: 0 <= j < |fields| ==> !BadErrorField(fields[j])
    ensures LastError(fields) == Found(fields[i].iface.err)
    decreases |fields|
  {
    var init := fields[..|fields| - 1];
    forall j | 0 <= j < |init| ensures !BadErrorField(init[j]) {
      assert init[j] == fields[j];
    }
    LastErrorPanicIff(init);
    if i < |fields| - 1 {
      forall j | i < j < |init| ensures init[j].typ != ErrorType {
        assert init[j] == fields[j];
      }
      LastErrorIsLast(init, i);
    }
  }

  /**
   * extractError. The first loop feeds every field to an encoder that is
   * then dropped; the second keeps the Interface of the latest ErrorType
   * field. A field that claims ErrorType without holding an error makes the
   * `.(error)` assertion panic; in zap the first loop's AddTo already runs
   * that assertion, so the call panics either way. The model records the
   * panic as the result, found by the second loop.
   */
  method ExtractError(fields: seq<Field>) returns (r: Extracted)
    ensures r == LastError(fields)
  {
    var enc: Doc := map[];
    for i := 0 to |fields| {
      enc := enc[fields[i].key := fields[i].written];
    }

    var foundError := NilError;
    for i := 0 to |fields|
      invariant foundError == LastError(fields[..i]) && !foundError.AssertionPanic?
    {
      assert fields[..i + 1][..i] == fields[..i];
      if fields[i].typ == ErrorType {
        if fields[i].iface.IfaceError? {
          foundError := Found(fields[i].iface.err);
        } else {
          PanicIsFinal(fields, i + 1);
          return AssertionPanic;
        }
      }
    }
    assert fields[..|fields|] == fields;
    r := foundError;
  }
}
