/** The payout provider the protocol runs against (packages/razorpay-adapter/src/index.ts). */
module PayoutPort {
  import opened Encoding
  import opened Tables
  import opened Settlement

  /** The seven letters of `payout_`. */
  const PREFIX: Text := [0x70, 0x61, 0x79, 0x6F, 0x75, 0x74, 0x5F]

  function IdempotencyKey(contract: Text): Text { PREFIX + contract }

  /** One key per contract: the key fixes the contract it was made for. */
  lemma KeyFixesContract(c: Text, d: Text)
    requires IdempotencyKey(c) == IdempotencyKey(d)
    ensures c == d
    ensures IdempotencyKey(c) == Units("payout_") + c
  {
    assert PREFIX == Units("payout_");
    assert c == IdempotencyKey(c)[7..] && d == IdempotencyKey(d)[7..];
  }

  class FakePayoutAdapter {
    // Payout ids count from 1, so the payouts made so far are those up to the counter.
    var payouts: map<nat, Payout>
    var byIdempotencyKey: map<Id, nat>
    var counter: nat

    ghost predicate Valid()
      reads this
    {
      && (forall id: nat :: id in payouts <==> 1 <= id <= counter)
      && (forall key :: key in byIdempotencyKey ==>
            byIdempotencyKey[key] in payouts && payouts[byIdempotencyKey[key]].contract == key)
      && (forall id: nat :: id in payouts ==>
            payouts[id].contract in byIdempotencyKey && byIdempotencyKey[payouts[id].contract] == id)
    }

    /** What has been paid, in the order it was issued. */
    ghost function Made(): (s: seq<Payout>)
      requires Valid()
      reads this
      ensures |s| == counter && forall i :: 0 <= i < counter ==> s[i] == payouts[i + 1]
    {
      var made, n := payouts, counter;
      seq(n, i requires 0 <= i < n => made[i + 1])
    }

    constructor ()
      ensures Valid() && Made() == []
    {
      payouts, byIdempotencyKey, counter := map[], map[], 0;
    }

    /** A repeated key pays nothing and answers with the payout first made under it. */
    method InitiatePayout(key: Id, due: Held) returns (id: nat, made: Payout)
      requires Valid()
      modifies this
      ensures Valid()
      ensures Made() == Initiate(old(Made()), key, due)
      ensures 1 <= id <= counter && made == Made()[id - 1] && made.contract == key
    {
      ghost var before := Made();
      if key in byIdempotencyKey {
        id := byIdempotencyKey[key];
        made := payouts[id];
        assert before[id - 1].contract == key;
        return;
      }
      counter := counter + 1;
      id, made := counter, Payout(key, due);
      payouts := payouts[counter := made];
      byIdempotencyKey := byIdempotencyKey[key := counter];
      assert Made() == before + [made];
    }
  }
}
