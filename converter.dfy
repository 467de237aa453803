/** The argument codec adapter (ConverterBase): builds a call envelope from a
    parameter list, skipping connection-typed parameters, and rebuilds the
    argument array on receipt, binding connection-typed slots to the sender. */
module ConverterBase {
  import opened Wire
  import opened Contracts

  /** Indices of the non-connection parameters, in increasing order. */
  function DataPositions(ps: seq<ParamType>): (r: seq<nat>)
    ensures |r| <= |ps|
    ensures forall k :: 0 <= k < |r| ==> r[k] < |ps| && ps[r[k]].DataType?
  {
    if ps == [] then []
    else DataPositions(ps[..|ps| - 1]) + (if ps[|ps| - 1].DataType? then [|ps| - 1] else [])
  }

  lemma {:induction false} DataPositionsComplete(ps: seq<ParamType>, i: nat)
    requires i < |ps| && ps[i].DataType?
    ensures i in DataPositions(ps)
    decreases |ps|
  {
    if i < |ps| - 1 {
      assert ps[..|ps| - 1][i] == ps[i];
      DataPositionsComplete(ps[..|ps| - 1], i);
    }
  }

  lemma {:induction false} DataPositionsIncreasing(ps: seq<ParamType>)
    ensures forall k, l :: 0 <= k < l < |DataPositions(ps)| ==> DataPositions(ps)[k] < DataPositions(ps)[l]
    decreases |ps|
  {
    if ps != [] {
      DataPositionsIncreasing(ps[..|ps| - 1]);
    }
  }

  /** All connection-typed parameters come after every data parameter. */
  ghost predicate TrailingConnections(ps: seq<ParamType>)
  {
    forall i, j :: 0 <= i < j < |ps| && ps[i].ConnectionType? ==> ps[j].ConnectionType?
  }

  /** With trailing connections the data parameters are exactly the first ones. */
  lemma {:induction false} DataPositionsOfTrailing(ps: seq<ParamType>)
    requires TrailingConnections(ps)
    ensures forall k :: 0 <= k < |DataPositions(ps)| ==> DataPositions(ps)[k] == k
    decreases |ps|
  {
    if ps != [] {
      var init := ps[..|ps| - 1];
      assert TrailingConnections(init) by {
        forall i, j | 0 <= i < j < |init| && init[i].ConnectionType? ensures init[j].ConnectionType? {
          assert ps[i] == init[i] && ps[j] == init[j];
        }
      }
      DataPositionsOfTrailing(init);
      if ps[|ps| - 1].DataType? {
        // every earlier parameter is a data parameter, so the new index is |init|
        forall i | 0 <= i < |init| ensures init[i].DataType? {
          assert ps[i] == init[i];
        }
        DataPositionsAllData(init);
      }
    }
  }

  lemma {:induction false} DataPositionsAllData(ps: seq<ParamType>)
    requires forall i :: 0 <= i < |ps| ==> ps[i].DataType?
    ensures |DataPositions(ps)| == |ps|
    decreases |ps|
  {
    if ps != [] {
      var init := ps[..|ps| - 1];
      assert forall i :: 0 <= i < |init| ==> init[i].DataType? by {
        forall i | 0 <= i < |init| ensures init[i].DataType? { assert init[i] == ps[i]; }
      }
      DataPositionsAllData(init);
    }
  }

  /** The arguments reach every data parameter (`args[i]` does not throw). */
  predicate ArgsCoverData(ps: seq<ParamType>, args: seq<Value>)
  {
    forall i :: 0 <= i < |ps| && ps[i].DataType? ==> i < |args|
  }

  /** The serialized arguments: one per data parameter, in parameter order. */
  function SerializedArgs(cv: Converter, ps: seq<ParamType>, args: seq<Value>): (r: seq<Bytes>)
    requires ArgsCoverData(ps, args)
    ensures |r| == |DataPositions(ps)|
  {
    var pos := DataPositions(ps);
    seq(|pos|, k requires 0 <= k < |pos| => cv.serializeArgument(args[pos[k]], ps[pos[k]]))
  }

  /** `CreateSendCallMessage(key, parameters, args)`. */
  method CreateSendCallMessage(cv: Converter, key: ushort, ps: seq<ParamType>, args: seq<Value>)
    returns (r: Result<CallMessage>)
    ensures r.Ok? <==> ArgsCoverData(ps, args)
    ensures r.Err? ==> r.error == IndexOutOfRange
    ensures r.Ok? ==> r.value.key == key && r.value.args == SerializedArgs(cv, ps, args)
  {
    var serialized: seq<Bytes> := [];
    var i := 0;
    while i < |ps|
      invariant 0 <= i <= |ps|
      invariant ArgsCoverData(ps[..i], args)
      invariant serialized == SerializedArgs(cv, ps[..i], args)
    {
      assert ps[..i + 1][..i] == ps[..i];
      if ps[i].ConnectionType? {
        i := i + 1;
        continue;
      }
      if i >= |args| {
        return Err(IndexOutOfRange);
      }
      serialized := serialized + [cv.serializeArgument(args[i], ps[i])];
      i := i + 1;
    }
    assert ps[..i] == ps;
    r := Ok(CallMessage(key, serialized));
  }

  /** `CreateSendCallMessage(obj, type)`: a one-argument envelope with the default key. */
  function CreateSendCallMessageSingle(cv: Converter, obj: Value, t: ParamType): (r: CallMessage)
    ensures r.key == 0 && |r.args| == 1
    ensures Lawful(cv) ==> cv.deserializeArgument(r.args[0], t) == obj
  {
    CallMessage(0, [cv.serializeArgument(obj, t)])
  }

  /** Every data slot's index is within the envelope's arguments. */
  predicate ArgsReachSlots(types: seq<ParamType>, cm: CallMessage)
  {
    forall i :: 0 <= i < |types| && types[i].DataType? ==> i < |cm.args|
  }

  /** Slot `i` of the rebuilt argument array: the sender for a connection slot,
      otherwise `Args[i]` deserialized — indexed by parameter position. */
  function Slot(cv: Converter, types: seq<ParamType>, cm: CallMessage, sender: Option<Connection>, i: nat): Value
    requires i < |types| && (types[i].DataType? ==> i < |cm.args|)
  {
    if types[i].ConnectionType? then ConnValue(sender) else cv.deserializeArgument(cm.args[i], types[i])
  }

  /** What `HandleRecieveMessage` returns for a payload. */
  function Decoded(cv: Converter, message: Bytes, types: seq<ParamType>, sender: Option<Connection>): (r: Result<seq<Value>>)
  {
    var cm := cv.deserializeCallMessage(message);
    if ArgsReachSlots(types, cm) then Ok(seq(|types|, i requires 0 <= i < |types| => Slot(cv, types, cm, sender, i)))
    else Err(IndexOutOfRange)
  }

  /** `HandleRecieveMessage(message, pointer, senderConnection)`. */
  method HandleRecieveMessage(cv: Converter, message: Bytes, pointer: MessageFilter, sender: Option<Connection>)
    returns (r: Result<seq<Value>>)
    ensures r == Decoded(cv, message, pointer.types, sender)
    ensures r.Ok? ==> |r.value| == |pointer.types|
    ensures r.Ok? ==> forall i :: 0 <= i < |pointer.types| && pointer.types[i].ConnectionType? ==> r.value[i] == ConnValue(sender)
    ensures r.Err? ==> r.error == IndexOutOfRange
  {
    var callMessage := cv.deserializeCallMessage(message);
    var types := pointer.types;
    var args := new Value[|types|];
    var i := 0;
    while i < |types|
      invariant 0 <= i <= |types|
      invariant forall j :: 0 <= j < i && types[j].DataType? ==> j < |callMessage.args|
      invariant forall j :: 0 <= j < i ==> args[j] == Slot(cv, types, callMessage, sender, j)
    {
      if types[i].ConnectionType? {
        args[i] := ConnValue(sender);
      } else {
        if i >= |callMessage.args| {
          assert !ArgsReachSlots(types, callMessage);
          return Err(IndexOutOfRange);
        }
        args[i] := cv.deserializeArgument(callMessage.args[i], types[i]);
      }
      i := i + 1;
    }
    r := Ok(args[..]);
    assert r.value == seq(|types|, i requires 0 <= i < |types| => Slot(cv, types, callMessage, sender, i));
  }

  /** The arguments a handler should see: the caller's, with every connection
      slot bound to the sender. */
  function Bound(ps: seq<ParamType>, args: seq<Value>, sender: Option<Connection>): (r: seq<Value>)
    requires ArgsCoverData(ps, args)
    ensures |r| == |ps|
  {
    seq(|ps|, i requires 0 <= i < |ps| => if ps[i].ConnectionType? then ConnValue(sender) else args[i])
  }

  /** Round trip: with the converter's inverse laws and every connection
      parameter trailing, decoding an encoded call returns the original
      arguments, with the connection slots bound to the sender. */
  lemma CallRoundTrip(cv: Converter, key: ushort, ps: seq<ParamType>, args: seq<Value>, sender: Option<Connection>)
    requires Lawful(cv) && TrailingConnections(ps) && ArgsCoverData(ps, args)
    ensures Decoded(cv, cv.serializeCallMessage(CallMessage(key, SerializedArgs(cv, ps, args))), ps, sender)
      == Ok(Bound(ps, args, sender))
  {
    var cm := CallMessage(key, SerializedArgs(cv, ps, args));
    assert cv.deserializeCallMessage(cv.serializeCallMessage(cm)) == cm;
    DataPositionsOfTrailing(ps);
    var pos := DataPositions(ps);
    forall i | 0 <= i < |ps| && ps[i].DataType? ensures i < |cm.args| && cm.args[i] == cv.serializeArgument(args[i], ps[i]) {
      DataPositionsComplete(ps, i);
      var k :| 0 <= k < |pos| && pos[k] == i;
      assert pos[k] == k;
    }
    assert ArgsReachSlots(ps, cm);
    var got := seq(|ps|, i requires 0 <= i < |ps| => Slot(cv, ps, cm, sender, i));
    var want := Bound(ps, args, sender);
    forall i | 0 <= i < |ps| ensures got[i] == want[i] {
      if ps[i].DataType? {
        assert cv.deserializeArgument(cv.serializeArgument(args[i], ps[i]), ps[i]) == args[i];
      }
    }
    assert got == want;
  }

  /** As written, a connection parameter in front of a data parameter makes
      decoding throw: the last data parameter's position is past the end of
      the envelope's arguments. */
  lemma MisalignedConnectionFails(cv: Converter, key: ushort, ps: seq<ParamType>, args: seq<Value>, sender: Option<Connection>, c: nat, d: nat)
    requires Lawful(cv) && ArgsCoverData(ps, args)
    requires c < d < |ps| && ps[c].ConnectionType? && ps[d].DataType?
    ensures Decoded(cv, cv.serializeCallMessage(CallMessage(key, SerializedArgs(cv, ps, args))), ps, sender) == Err(IndexOutOfRange)
  {
    var cm := CallMessage(key, SerializedArgs(cv, ps, args));
    assert cv.deserializeCallMessage(cv.serializeCallMessage(cm)) == cm;
    var pos := DataPositions(ps);
    DataPositionsComplete(ps, d);
    DataPositionsIncreasing(ps);
    var n := |pos| - 1;
    assert pos[n] >= d by {
      var k :| 0 <= k < |pos| && pos[k] == d;
      if k < n { assert pos[k] < pos[n]; }
    }
    assert c !in pos;
    PositionLowerBound(pos, c, n);
    assert ps[pos[n]].DataType? && pos[n] >= |cm.args|;
  }

  /** In an increasing sequence of indices that skips `c`, the entry at `k`
      is at least `k`, and at least `k + 1` once it is past `c`. */
  lemma {:induction false} PositionLowerBound(pos: seq<nat>, c: nat, k: nat)
    requires forall a, b :: 0 <= a < b < |pos| ==> pos[a] < pos[b]
    requires c !in pos && k < |pos|
    ensures pos[k] >= k && (pos[k] > c ==> pos[k] >= k + 1)
  {
    if k > 0 {
      PositionLowerBound(pos, c, k - 1);
      assert pos[k - 1] < pos[k] && pos[k - 1] != c;
    }
  }
}
