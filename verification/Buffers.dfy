/** Values on their way from a child process to the parent: buffers travel as plain objects, which the parent turns
    back into buffers wherever it finds one. */
module Buffers {
  datatype Value =
    | Null
    | Bool(b: bool)
    | Number(n: int)
    | Text(s: string)
    | Buffer(bytes: seq<nat>)
    | Array(items: seq<Value>)
    | Object(fields: map<string, Value>)

  /** An object that reads like a serialised buffer. */
  predicate LooksLikeBuffer(fields: map<string, Value>) {
    "type" in fields && fields["type"] == Text("Buffer") && "data" in fields && fields["data"].Array?
  }

  function Numbers(bytes: seq<nat>): seq<Value> {
    seq(|bytes|, i requires 0 <= i < |bytes| => Number(bytes[i]))
  }

  /** What the channel carries: a buffer writes itself as an object with its type and its bytes. */
  function Wire(v: Value): Value {
    match v
    case Buffer(bytes) => Object(map["type" := Text("Buffer"), "data" := Array(Numbers(bytes))])
    case Array(items) => Array(seq(|items|, i requires 0 <= i < |items| => Wire(items[i])))
    case Object(fields) => Object(map k | k in fields :: Wire(fields[k]))
    case _ => v
  }

  /** Each element is taken as a byte; what is not a number counts as zero. */
  function Bytes(items: seq<Value>): seq<nat> {
    seq(|items|, i requires 0 <= i < |items| => if items[i].Number? then items[i].n % 256 else 0)
  }

  function DeserializeBuffers(v: Value): Value {
    match v
    case Object(fields) =>
      if LooksLikeBuffer(fields) then Buffer(Bytes(fields["data"].items))
      else Object(map k | k in fields :: DeserializeBuffers(fields[k]))
    case Array(items) => Array(seq(|items|, i requires 0 <= i < |items| => DeserializeBuffers(items[i])))
    case _ => v
  }

  /** Every buffer in the value holds bytes. */
  predicate Bytewise(v: Value) {
    match v
    case Buffer(bytes) => forall i :: 0 <= i < |bytes| ==> bytes[i] < 256
    case Array(items) => forall i :: 0 <= i < |items| ==> Bytewise(items[i])
    case Object(fields) => forall k :: k in fields ==> Bytewise(fields[k])
    case _ => true
  }

  /** No plain object anywhere in the value reads like a serialised buffer. */
  predicate NoLookalike(v: Value) {
    match v
    case Array(items) => forall i :: 0 <= i < |items| ==> NoLookalike(items[i])
    case Object(fields) => !LooksLikeBuffer(fields) && forall k :: k in fields ==> NoLookalike(fields[k])
    case _ => true
  }

  lemma BufferReturns(bytes: seq<nat>)
    requires forall i :: 0 <= i < |bytes| ==> bytes[i] < 256
    ensures DeserializeBuffers(Wire(Buffer(bytes))) == Buffer(bytes)
  {
    assert Bytes(Numbers(bytes)) == bytes;
  }

  lemma WireShape(v: Value)
    ensures Wire(v).Text? ==> Wire(v) == v
    ensures Wire(v).Array? <==> v.Array?
  {
  }

  lemma LookalikeTravels(fields: map<string, Value>)
    ensures LooksLikeBuffer(Wire(Object(fields)).fields) <==> LooksLikeBuffer(fields)
  {
    if "type" in fields && "data" in fields {
      WireShape(fields["type"]);
      WireShape(fields["data"]);
    }
  }

  /** A value arrives as it was sent exactly when no plain object in it reads like a serialised buffer. */
  lemma {:induction false} ArrivesIff(v: Value)
    requires Bytewise(v)
    ensures DeserializeBuffers(Wire(v)) == v <==> NoLookalike(v)
  {
    match v {
      case Buffer(bytes) => BufferReturns(bytes);
      case Array(items) =>
        var back := DeserializeBuffers(Wire(v));
        forall i | 0 <= i < |items| ensures back.items[i] == items[i] <==> NoLookalike(items[i]) {
          ArrivesIff(items[i]);
        }
      case Object(fields) =>
        LookalikeTravels(fields);
        if !LooksLikeBuffer(fields) {
          var back := DeserializeBuffers(Wire(v));
          forall k | k in fields ensures back.fields[k] == fields[k] <==> NoLookalike(fields[k]) {
            ArrivesIff(fields[k]);
          }
          assert back.fields.Keys == fields.Keys;
        }
      case _ =>
    }
  }
}
