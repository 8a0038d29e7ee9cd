/** Typed DynamoDB attribute values (lambda/common/aws_runtime.py: `_encode_value`, `_decode_value`). */
module DynamoValue {
  import opened Wrappers
  import Decimal

  /** A Python value that can be stored. */
  datatype Value = Str(s: string) | Int(n: int) | Map(m: map<string, Value>)

  /** An attribute value on the wire. */
  datatype Attr = S(s: string) | N(text: string) | M(m: map<string, Attr>)

  type Item = map<string, Attr>

  datatype StoreError = StoreInvalid

  function Encode(v: Value, depth: nat): Result<Attr, StoreError>
    decreases 3 - depth
  {
    if depth > 2 then Err(StoreInvalid)
    else
      match v
      case Int(n) => Ok(N(Decimal.Of(n)))
      case Str(s) => Ok(S(s))
      case Map(m) =>
        if m == map[] || (exists k :: k in m && k == "") then Err(StoreInvalid)
        else if exists k :: k in m && Encode(m[k], depth + 1).Err? then Err(StoreInvalid)
        else Ok(M(map k | k in m :: Encode(m[k], depth + 1).value))
  }

  function Decode(a: Attr, depth: nat): Result<Value, StoreError>
    decreases 3 - depth
  {
    if depth > 2 then Err(StoreInvalid)
    else
      match a
      case S(s) => Ok(Str(s))
      case N(text) =>
        (match Decimal.Parse(text)
         case Some(n) => Ok(Int(n))
         case None => Err(StoreInvalid))
      case M(m) =>
        if m == map[] || (exists k :: k in m && k == "") then Err(StoreInvalid)
        else if exists k :: k in m && Decode(m[k], depth + 1).Err? then Err(StoreInvalid)
        else Ok(Map(map k | k in m :: Decode(m[k], depth + 1).value))
  }

  /** What is stored reads back unchanged. */
  lemma {:induction false} DecodeEncode(v: Value, depth: nat)
    requires Encode(v, depth).Ok?
    ensures Decode(Encode(v, depth).value, depth) == Ok(v)
    decreases 3 - depth
  {
    match v
    case Int(n) => Decimal.ParseOf(n);
    case Str(_) =>
    case Map(m) =>
      forall k | k in m ensures Decode(Encode(m[k], depth + 1).value, depth + 1) == Ok(m[k]) {
        DecodeEncode(m[k], depth + 1);
      }
      var a := Encode(v, depth).value.m;
      assert a.Keys == m.Keys;
      var some :| some in m;
      assert some in a;
      assert forall k :: k in a ==> a[k] == Encode(m[k], depth + 1).value && Decode(a[k], depth + 1) == Ok(m[k]);
      assert "" !in a;
      var back := map k | k in a :: Decode(a[k], depth + 1).value;
      assert back == m;
      assert Decode(M(a), depth) == Ok(Map(back));
  }

  /** Exactly the values nested at most as deep as the reader allows, without empty maps or keys, can be
      stored. */
  ghost predicate Storable(v: Value, depth: nat)
    decreases 3 - depth
  {
    depth <= 2 && (v.Map? ==> v.m != map[] && forall k :: k in v.m ==> k != "" && Storable(v.m[k], depth + 1))
  }

  lemma {:induction false} EncodeOkIff(v: Value, depth: nat)
    ensures Encode(v, depth).Ok? <==> Storable(v, depth)
    decreases 3 - depth
  {
    if depth <= 2 && v.Map? {
      forall k | k in v.m ensures Encode(v.m[k], depth + 1).Ok? <==> Storable(v.m[k], depth + 1) {
        EncodeOkIff(v.m[k], depth + 1);
      }
    }
  }
}
