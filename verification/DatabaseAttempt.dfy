/**
 How an attempt of a Database transaction opens: the current value on its way to
 the port.
 */
module DatabaseAttempt {
  import opened Bytes
  import Cbor
  import opened Variants
  import opened VariantDecode
  import opened VariantMeaning
  import opened VariantEncode
  import opened Framing
  import opened DatabaseTxn

  /** The handler up to its wait: the current value is serialized, the attempt
      opened and the value posted under its number. That the serialization fails,
      which would abort the transaction before its attempt, does not happen. */
  method OpenAttempt(state: DbTxnState, vm: Vm, port: int, now: I64, data: Variant, memory: bool) returns (aborted: bool)
    requires Valid(data) && state.attempt < 0x7FFF_FFFF_FFFF_FFFF
    modifies state, vm
    ensures !aborted
    ensures state.Abs() == Renew(old(state.Abs()))
    ensures vm.posts == old(vm.posts)
                        + if memory then [Message(port, Frame(state.attempt, now, Encoding(data), []))] else []
  {
    hide Encoding, Frame;
    var ok, payload, _ := SerializeVariant(data);
    aborted := !ok;
    if ok {
      var attempt := state.BeginAttempt();
      vm.PostBuffer(port, attempt, now, payload, memory);
    }
  }

  /** What the client encodes for an attempt is what the attempt stores, in its
      normal form, as long as the reader can count it. */
  lemma {:induction false} ValueStored(run: seq<Action>, n: nat, v: Variant)
    requires After(run).Some? && 1 <= n <= |After(run).value.outcomes|
    requires Valid(v) && Fits(v) && Enter(n, Answer(Encoding(v), false)) in run
    ensures After(run).value.outcomes[n - 1] == Store(Norm(v))
  {
    hide After, Parse, Norm, Fits;
    EncodingParses(v);
    AnswersStored(run, n, Answer(Encoding(v), false));
  }

  lemma {:induction false} EncodingParses(v: Variant)
    requires Valid(v) && Fits(v)
    ensures Encoding(v) != [] && Parse(Encoding(v)) == Some(Norm(v))
  {
    hide Parse, Norm, Fits, Cbor.Wire;
    ParseEncoded(v, []);
    var t := ItemOf(v);
    assert Cbor.Wire(t) + [] == Cbor.Wire(t);
    Cbor.WireNonEmpty(t);
  }
}
