/// A run in which a party drops a chain: eviction is reached after a few exchanges.
module Eviction {
  import opened Bytes
  import opened Crypto
  import opened Kdf
  import opened Ratchet
  import opened Session
  import opened Ledger
  import opened Delivery
  import opened TwoParty
  import opened Runs
  import X3dh

  /// The states that runs lead to.
  ghost predicate Reached(c: Config, sys: System) {
    exists alice, bob, states, steps :: Run(c, alice, bob, states, steps) && states[|steps|] == sys
  }

  lemma ReachedStep(c: Config, sys: System, step: Step)
    requires Reached(c, sys) && Usable(c) && Enabled(c, sys, step)
    ensures Reached(c, Next(c, sys, step).0)
  {
    hide Laws, CanStart, Init, Usable, Next, FreshKey, PqAgrees, NoCollision, DecryptIn, DecryptPreKeyIn, Established, AliceNow, BobNow;
    var alice, bob, states, steps :| Run(c, alice, bob, states, steps) && states[|steps|] == sys;
    var after := Next(c, sys, step).0;
    var states', steps' := states + [after], steps + [step];
    forall k | 0 <= k < |steps'| ensures IsStep(c, states'[k], steps'[k], states'[k + 1]) {
      if k < |steps| {
        assert IsStep(c, states[k], steps[k], states[k + 1]);
      }
    }
    assert Run(c, alice, bob, states', steps');
  }

  lemma ReachedInv(c: Config, sys: System)
    requires Reached(c, sys)
    ensures Laws(c) && Usable(c) && Inv(c, sys)
  {
    hide Inv, CanStart, Init, Usable, Laws, IsStep;
    var alice, bob, states, steps :| Run(c, alice, bob, states, steps) && states[|steps|] == sys;
    RunLength(c, alice, bob, states, steps);
    RunInv(c, alice, bob, states, steps, |steps|);
  }

  // ---------------------------------------------------------------- a small session

  function Numbered(n: byte): Key {
    [n] + Zeros(31)
  }

  function ToyBundle(): Bundle {
    Bundle(1, Numbered(1), None, None, 1, Numbered(2), Zeros(64), None, None, None)
  }

  function ToyConfig(a: Address): Config {
    Config(Toy(), Local(Numbered(3), 1), Local(Numbered(1), 1), a, a,
           ToyBundle(), Fresh(Numbered(4), Numbered(5), Numbered(6)), PreKeys(map[], map[1 := Numbered(2)], None, {}))
  }

  lemma ToyRoot(root: Key, theirs: Key, ours: Key)
    ensures RootStep(Toy(), root, theirs, ours).Ok?
  {
    hide CreateChain, XorKeys;
  }

  lemma ToyAgreed(p: X3dh.AliceParams)
    requires p.theirKyber.None?
    ensures X3dh.Alice(Toy(), p).Ok? && X3dh.Alice(Toy(), p).value.kyberCiphertext.None?
  {
    hide CreateSessionKeys, X3dh.Secret, XorKeys;
  }

  lemma ToyUsable(a: Address)
    ensures Usable(ToyConfig(a))
  {
    hide X3dh.Alice, RootStep;
    var c := ToyConfig(a);
    ToyAgreed(AliceParams(c));
    ToyRoot(X3dh.Alice(c.suite, AliceParams(c)).value.keys.root, c.bundle.signedPreKey, c.drawn.ratchet);
    assert Numbered(2)[0] != Numbered(5)[0];
  }

  lemma ToyStarts(a: Address)
    ensures var c := ToyConfig(a); CanStart(c, map[], map[]) && Laws(c) && Reached(c, Init(c, map[], map[]))
  {
    hide Usable, Wrapped, Init;
    var c := ToyConfig(a);
    ToyUsable(a);
    ToyIsLawful();
    assert Run(c, map[], map[], [Init(c, map[], map[])], []);
  }

  /// A fresh key exists.
  lemma Unused(epochs: seq<Epoch>) returns (key: Key)
    requires |epochs| < 100
    ensures FreshKey(Toy(), epochs, key)
  {
    var keys := seq(|epochs|, i requires 0 <= i < |epochs| => Public(Toy(), epochs[i]));
    FirstKeys(100);
    key := Missing(keys, set n: byte | n < 100 :: Numbered(n));
    forall i | 0 <= i < |epochs| ensures Public(Toy(), epochs[i]) != Toy().pub(key) {
      assert keys[i] in keys;
    }
  }

  lemma {:induction false} FirstKeys(n: byte)
    ensures |set i: byte | i < n :: Numbered(i)| == n as nat
  {
    var all := set i: byte | i < n :: Numbered(i);
    if n == 0 {
      assert all == {};
    } else {
      FirstKeys(n - 1);
      var fewer := set i: byte | i < n - 1 :: Numbered(i);
      assert Numbered(n - 1) !in fewer by {
        assert forall i: byte :: Numbered(i)[0] == i;
      }
      assert all == fewer + {Numbered(n - 1)};
    }
  }

  lemma {:induction false} Missing(keys: seq<Key>, candidates: set<Key>) returns (key: Key)
    requires |candidates| > |keys|
    ensures key in candidates && key !in keys
  {
    if keys == [] {
      key :| key in candidates;
    } else {
      var n := |keys| - 1;
      assert |candidates - {keys[n]}| >= |candidates| - 1;
      key := Missing(keys[..n], candidates - {keys[n]});
      assert keys == keys[..n] + [keys[n]];
    }
  }

  // ---------------------------------------------------------------- exchanges

  /// A session early in a run of this suite, without the post-quantum ratchet.
  ghost predicate Small(c: Config, sys: System) {
    && Reached(c, sys) && c.suite == Toy() && c.bundle.kyberKey.None? && c.bundle.preKeyId.None?
    && |sys.log.epochs| < 50 && |sys.log.sent| < 50
  }

  lemma {:induction false} CountBound(sent: seq<Sent>, epoch: nat)
    ensures CountIn(sent, epoch) <= |sent|
  {
    if sent != [] {
      CountBound(sent[..|sent| - 1], epoch);
    }
  }

  lemma NoPqNow(c: Config, sys: System)
    requires Usable(c) && Inv(c, sys) && c.bundle.kyberKey.None?
    ensures AliceNow(c, sys).Ok? && AliceNow(c, sys).value.pqState == [] && BobNow(c, sys).pqState == []
    ensures Following(sys.log.stored, AlicePosition(sys.log.epochs) + 1) == 0
    ensures Following(sys.log.stored, BobPosition(sys.log.epochs) + 1) == 0
  {
    hide Usable, LogOk, AlicePosition, BobPosition, BobNow, AliceNow, LedgerOk, PartyOk, NoSkipped, Indexed, Following, Established;
    FirstPq(c);
  }

  lemma ToyNew(epochs: seq<Epoch>, freshKey: Key)
    requires epochs != []
    ensures NewEpoch(Toy(), epochs, freshKey).Ok?
  {
    hide RootStep;
    var last := epochs[|epochs| - 1];
    ToyRoot(last.root, Public(Toy(), last), freshKey);
  }

  /// Alice sends a message, which may be lost.
  lemma AliceTalks(c: Config, sys: System) returns (after: System)
    requires Small(c, sys)
    ensures Reached(c, after) && after.bob == sys.bob
    ensures |after.log.sent| == |sys.log.sent| + 1 && sys.log.sent <= after.log.sent
    ensures after.log.epochs == sys.log.epochs && after.log.stored == sys.log.stored
    ensures after.log.sent[|sys.log.sent|].epoch == AlicePosition(sys.log.epochs)
    ensures after.log.sent[|sys.log.sent|].counter < 50
  {
    hide Inv, Usable, AliceSend, Reached, CountIn, AlicePosition, Established;
    ReachedInv(c, sys);
    NoPqNow(c, sys);
    CountBound(sys.log.sent, AlicePosition(sys.log.epochs));
    AliceStep(c, sys, [], []);
    ReachedStep(c, sys, AliceSends([], []));
    after := AliceSend(c, sys, [], []).0;
  }

  lemma BobTalks(c: Config, sys: System) returns (after: System)
    requires Small(c, sys) && Usable(c) && Established(c, sys)
    ensures Reached(c, after) && Established(c, after)
    ensures |after.log.sent| == |sys.log.sent| + 1 && sys.log.sent <= after.log.sent
    ensures after.log.epochs == sys.log.epochs && after.log.stored == sys.log.stored
    ensures after.log.sent[|sys.log.sent|].epoch == BobPosition(sys.log.epochs)
    ensures after.log.sent[|sys.log.sent|].counter < 50
  {
    hide Inv, Usable, BobSend, Reached, CountIn, BobPosition, Established, BobNow;
    ReachedInv(c, sys);
    NoPqNow(c, sys);
    CountBound(sys.log.sent, BobPosition(sys.log.epochs));
    BobStep(c, sys, [], []);
    ReachedStep(c, sys, BobSends([], []));
    after := BobSend(c, sys, [], []).0;
  }

  /// The newest message of the newest epoch is delivered, and its receiver makes the next epoch.
  lemma Turns(c: Config, sys: System, step: Step)
    requires Reached(c, sys) && c.suite == Toy() && c.bundle.preKeyId.None?
    requires Usable(c) && Enabled(c, sys, step) && Delivers(step)
    requires step.message < |sys.log.sent| && sys.log.sent[step.message].counter < 50
    requires sys.log.sent[step.message].epoch == PositionOf(sys, step) + 1 == |sys.log.epochs| - 1
    requires Following(sys.log.stored, PositionOf(sys, step) + 1) == 0 && Stores(c, sys, step)
    ensures var after := Next(c, sys, step).0;
      && Reached(c, after) && |after.log.epochs| == |sys.log.epochs| + 1 && after.log.sent == sys.log.sent
      && (Established(c, sys) || step.ToBob? ==> Established(c, after))
  {
    hide Inv, Usable, Reached, Next, Established, Following, NewEpoch, StaleFails, Enabled;
    ReachedInv(c, sys);
    ReachedStep(c, sys, step);
    DeliveryStep(c, sys, step);
    ToyNew(sys.log.epochs, step.freshKey);
  }

  /// Alice's message reaches Bob, whose turn it then is; it starts his session if he has none.
  lemma AliceToBob(c: Config, sys: System) returns (after: System)
    requires Small(c, sys) && |sys.log.epochs| % 2 == 0
    ensures Reached(c, after) && Usable(c) && Established(c, after)
    ensures |after.log.epochs| == |sys.log.epochs| + 1
    ensures |after.log.sent| == |sys.log.sent| + 1 && sys.log.sent <= after.log.sent
  {
    hide Inv, Usable, Reached, Next, Established, Following, BobNow, LogOk;
    var mid := AliceTalks(c, sys);
    ReachedInv(c, mid);
    NoPqNow(c, mid);
    var j := |sys.log.sent|;
    var key := Unused(mid.log.epochs);
    var step := if Established(c, mid) then InnerToBob(j, key) else ToBob(j, key);
    Turns(c, mid, step);
    after := Next(c, mid, step).0;
  }

  lemma BobToAlice(c: Config, sys: System) returns (after: System)
    requires Small(c, sys) && Usable(c) && Established(c, sys) && |sys.log.epochs| % 2 == 1
    ensures Reached(c, after) && Established(c, after)
    ensures |after.log.epochs| == |sys.log.epochs| + 1
    ensures |after.log.sent| == |sys.log.sent| + 1 && sys.log.sent <= after.log.sent
  {
    hide Inv, Usable, Reached, Next, Established, Following, AliceNow;
    var mid := BobTalks(c, sys);
    ReachedInv(c, mid);
    NoPqNow(c, mid);
    var j := |sys.log.sent|;
    var key := Unused(mid.log.epochs);
    var step := ToAlice(j, key);
    Turns(c, mid, step);
    after := Next(c, mid, step).0;
  }

  lemma {:induction false} Exchanges(c: Config, sys: System, n: nat) returns (after: System)
    requires Small(c, sys) && Usable(c) && Established(c, sys) && |sys.log.epochs| % 2 == 1
    requires |sys.log.epochs| + 2 * n < 49 && |sys.log.sent| + 2 * n < 49
    ensures Reached(c, after) && |after.log.epochs| == |sys.log.epochs| + 2 * n && sys.log.sent <= after.log.sent
    decreases n
  {
    hide Usable, Reached, Established;
    after := sys;
    if n > 0 {
      var mid := BobToAlice(c, sys);
      mid := AliceToBob(c, mid);
      after := Exchanges(c, mid, n - 1);
    }
  }

  /// Some run leads to a state in which a message that was sent, and is still on its way, is of an
  /// epoch whose chain its receiver has dropped.
  lemma EvictionHappens(a: Address)
    ensures exists c, sys, j: nat ::
      Reached(c, sys) && j < |sys.log.sent| && sys.log.sent[j].epoch < BobPosition(sys.log.epochs)
      && sys.log.sent[j].epoch % 2 == 1 && !InWindow(sys.log.sent[j].epoch, BobPosition(sys.log.epochs))
  {
    hide Reached, Usable, Established, Init;
    var c := ToyConfig(a);
    ToyStarts(a);
    ToyUsable(a);
    var sys := Init(c, map[], map[]);
    StartLog(c);
    var lost := AliceTalks(c, sys);
    var started := AliceToBob(c, lost);
    var later := Exchanges(c, started, 5);
    assert later.log.sent[0] == lost.log.sent[0];
  }

  lemma StartLog(c: Config)
    requires Usable(c)
    ensures var log := Init(c, map[], map[]).log; |log.epochs| == 2 && log.sent == []
  {
    hide Usable, FirstEpochs;
  }
}
