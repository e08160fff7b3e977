/// Whole runs of a two-party session: what every delivery returns, by what was stored before it.
module Runs {
  import opened Bytes
  import opened Crypto
  import opened Kdf
  import opened Ratchet
  import opened Session
  import opened Ledger
  import opened Delivery
  import opened TwoParty

  // ---------------------------------------------------------------- one step

  ghost predicate Laws(c: Config) {
    DhLaw(c.suite) && BlockLaw(c.suite) && KemLaw(c.suite)
  }

  lemma DeliveryStep(c: Config, sys: System, step: Step)
    requires Laws(c) && Usable(c) && Inv(c, sys) && Enabled(c, sys, step) && Delivers(step)
    ensures ByTheLedger(c, sys, step)
  {
    hide Inv, Deliverable, ByTheLedger, Usable, Established;
    match step
    case ToAlice(j, freshKey) => ToAliceStep(c, sys, j, freshKey);
    case ToBob(j, freshKey) =>
      if Established(c, sys) {
        ToBobAgain(c, sys, j, freshKey);
      } else {
        ToBobFirst(c, sys, j, freshKey);
      }
    case InnerToBob(j, freshKey) => InnerToBobStep(c, sys, j, freshKey);
  }

  predicate Succeeds(c: Config, sys: System, step: Step)
    requires Usable(c)
  {
    Delivers(step) && step.message < |sys.log.sent| && Next(c, sys, step).1.Ok?
  }

  /// What a step adds to the stored acceptances.
  function StoredBy(c: Config, sys: System, step: Step): seq<Mark>
    requires Usable(c)
  {
    if Succeeds(c, sys, step) && Stores(c, sys, step)
    then [Mark(sys.log.sent[step.message].epoch, sys.log.sent[step.message].counter)]
    else []
  }

  /// What every step does to the log, and what it keeps.
  ghost predicate Grows(c: Config, sys: System, step: Step, after: System)
    requires Usable(c)
  {
    && Inv(c, after)
    && sys.log.epochs <= after.log.epochs && sys.log.sent <= after.log.sent
    && after.log.stored == sys.log.stored + StoredBy(c, sys, step)
    && (Established(c, sys) ==> Established(c, after))
  }

  lemma StepGrows(c: Config, sys: System, step: Step)
    requires Laws(c) && Usable(c) && Inv(c, sys) && Enabled(c, sys, step)
    ensures Grows(c, sys, step, Next(c, sys, step).0)
  {
    hide Inv, Usable, Established, AliceSend, BobSend, AliceReceive, BobReceive, BobReceivePreKey, Deliverable, DecryptIn, DecryptPreKeyIn,
         Expected, EncryptIn, AliceNow, BobNow;
    if Delivers(step) {
      DeliveryStep(c, sys, step);
    } else if step.AliceSends? {
      AliceStep(c, sys, step.plaintext, step.random);
      SameEstablished(c, sys, AliceSend(c, sys, step.plaintext, step.random).0);
      assert sys.log.stored + [] == sys.log.stored;
    } else if step.BobSends? {
      BobStep(c, sys, step.plaintext, step.random);
      assert sys.log.stored + [] == sys.log.stored;
    } else {
      BadStep(c, sys, step);
      assert sys.log.stored + [] == sys.log.stored;
    }
  }

  lemma SameEstablished(c: Config, sys: System, after: System)
    requires Usable(c) && sys.bob == after.bob
    ensures Established(c, after) == Established(c, sys)
  {
    hide Usable, Wrapped;
  }

  // ---------------------------------------------------------------- runs

  ghost predicate IsStep(c: Config, sys: System, step: Step, after: System)
    requires Usable(c)
  {
    Enabled(c, sys, step) && after == Next(c, sys, step).0
  }

  /// The states along a run.
  ghost predicate IsRun(c: Config, states: seq<System>, steps: seq<Step>)
    requires Usable(c)
  {
    && |states| == |steps| + 1
    && forall k :: 0 <= k < |steps| ==> IsStep(c, states[k], steps[k], states[k + 1])
  }

  /// A run from a session that the initiator has just made.
  ghost predicate Run(c: Config, alice: Sessions, bob: Sessions, states: seq<System>, steps: seq<Step>) {
    && Laws(c) && CanStart(c, alice, bob)
    && IsRun(c, states, steps) && states[0] == Init(c, alice, bob)
  }

  lemma {:induction false} RunInv(c: Config, alice: Sessions, bob: Sessions, states: seq<System>, steps: seq<Step>, k: nat)
    requires Run(c, alice, bob, states, steps) && k < |states|
    ensures Usable(c) && Inv(c, states[k])
    ensures k < |steps| ==> Enabled(c, states[k], steps[k]) && Grows(c, states[k], steps[k], states[k + 1])
  {
    hide Inv, Enabled, Next, Usable, Init, Laws, Established, StoredBy;
    assert Usable(c) by { StartUsable(c, alice, bob); }
    if k == 0 {
      InitInv(c, alice, bob);
    } else {
      RunInv(c, alice, bob, states, steps, k - 1);
    }
    if k < |steps| {
      assert IsStep(c, states[k], steps[k], states[k + 1]);
      StepGrows(c, states[k], steps[k]);
    }
  }

  lemma StartUsable(c: Config, alice: Sessions, bob: Sessions)
    requires CanStart(c, alice, bob)
    ensures Usable(c)
  {
  }

  /// Messages are never lost from the log, and Bob's session is never given up.
  lemma {:induction false} Later(c: Config, alice: Sessions, bob: Sessions, states: seq<System>, steps: seq<Step>, i: nat, k: nat)
    requires Run(c, alice, bob, states, steps) && i <= k < |states|
    ensures Usable(c) && states[i].log.sent <= states[k].log.sent
    ensures Established(c, states[i]) ==> Established(c, states[k])
    decreases k - i
  {
    hide Inv, Enabled, Next, Usable, Init, Laws, Established, StoredBy, Run;
    RunLength(c, alice, bob, states, steps);
    RunInv(c, alice, bob, states, steps, i);
    if i < k {
      Later(c, alice, bob, states, steps, i + 1, k);
    }
  }

  lemma RunLength(c: Config, alice: Sessions, bob: Sessions, states: seq<System>, steps: seq<Step>)
    requires Run(c, alice, bob, states, steps)
    ensures |states| == |steps| + 1 && Usable(c)
    ensures states[0].log.stored == [] && |states[0].log.epochs| == 2 && states[0].bob == bob
    ensures !SameSession(RecordOf(bob, c.aliceAddress), Wrapped(c, []))
  {
    hide AliceState, SameSession;
  }

  // ---------------------------------------------------------------- history

  /// All these messages of an epoch have smaller counters.
  predicate Below(marks: seq<Mark>, epoch: nat, counter: nat) {
    forall x :: x in marks && x.epoch == epoch ==> x.counter < counter
  }

  /// The counter that a party expects next of an epoch is after those of exactly the messages whose
  /// acceptance some earlier step stored.
  lemma {:induction false} Ahead(c: Config, alice: Sessions, bob: Sessions, states: seq<System>, steps: seq<Step>, k: nat,
                                 epoch: nat, counter: nat)
    requires Run(c, alice, bob, states, steps) && k < |states|
    ensures Usable(c) && |states| == |steps| + 1
    ensures counter >= Following(states[k].log.stored, epoch) <==>
      forall i :: 0 <= i < k ==> Below(StoredBy(c, states[i], steps[i]), epoch, counter)
  {
    hide Inv, Enabled, Next, Usable, Init, Laws, Established, StoredBy, Run, Following;
    RunLength(c, alice, bob, states, steps);
    FollowingIsMaximum(states[k].log.stored, epoch, counter);
    if k > 0 {
      RunInv(c, alice, bob, states, steps, k - 1);
      Ahead(c, alice, bob, states, steps, k - 1, epoch, counter);
      FollowingIsMaximum(states[k - 1].log.stored, epoch, counter);
      var before, more := states[k - 1].log.stored, StoredBy(c, states[k - 1], steps[k - 1]);
      BelowConcat(before, more, epoch, counter);
      BelowAll(before, epoch, counter);
      BelowAll(before + more, epoch, counter);
    }
  }

  lemma BelowConcat(a: seq<Mark>, b: seq<Mark>, epoch: nat, counter: nat)
    ensures Below(a + b, epoch, counter) <==> Below(a, epoch, counter) && Below(b, epoch, counter)
  {
    assert forall x :: x in a + b <==> x in a || x in b;
  }

  lemma BelowAll(marks: seq<Mark>, epoch: nat, counter: nat)
    ensures Below(marks, epoch, counter) <==> forall i :: 0 <= i < |marks| && marks[i].epoch == epoch ==> marks[i].counter < counter
  {
  }

  // ---------------------------------------------------------------- what every run keeps

  /// In every run of a session, with messages lost, reordered, duplicated and forged: each delivery of
  /// a genuine message returns exactly what the ledger and the messages stored before it say; one
  /// that fails leaves both stores of sessions as they were.
  lemma EveryRun(c: Config, alice: Sessions, bob: Sessions, states: seq<System>, steps: seq<Step>, k: nat)
    requires Run(c, alice, bob, states, steps) && k < |steps| && Delivers(steps[k])
    ensures Usable(c) && ByTheLedger(c, states[k], steps[k])
    ensures var sys, r := states[k], Next(c, states[k], steps[k]).1;
      && r == Expected(c, sys, steps[k])
      && (r.Err? ==> states[k + 1].alice == sys.alice && states[k + 1].bob == sys.bob && states[k + 1].log == sys.log)
  {
    hide Inv, Usable, Init, Laws, Established, Expected, Next;
    RunInv(c, alice, bob, states, steps, k);
    assert IsStep(c, states[k], steps[k], states[k + 1]);
    DeliveryStep(c, states[k], steps[k]);
  }

  /// The chain of the message's epoch is there, or its first keys can be made.
  predicate ChainReachable(c: Config, sys: System, step: Step)
    requires Delivers(step) && step.message < |sys.log.sent|
  {
    var t, m := PositionOf(sys, step), sys.log.sent[step.message];
    InWindow(m.epoch, t) || (m.epoch == t + 1 && NewEpoch(c.suite, sys.log.epochs, step.freshKey).Ok?)
  }

  /// The message that would start the session still finds the one-time pre-key that it names.
  predicate KeyLeft(c: Config, sys: System, step: Step)
    requires Usable(c)
  {
    step.ToBob? && !Established(c, sys) && c.bundle.preKeyId.Some? ==> c.bundle.preKeyId.value in sys.preKeys.oneTime
  }

  /// In every run a genuine message is accepted, with its plaintext, if and only if its chain can be
  /// reached, its counter exceeds those of all messages of its epoch whose acceptance was stored
  /// before, and it is at most 25000 ahead of them.
  lemma AcceptedIff(c: Config, alice: Sessions, bob: Sessions, states: seq<System>, steps: seq<Step>, k: nat)
    requires Run(c, alice, bob, states, steps) && k < |steps| && Delivers(steps[k])
    ensures Usable(c) && |states| == |steps| + 1 && steps[k].message < |states[k].log.sent|
    ensures var sys, r := states[k], Next(c, states[k], steps[k]).1;
      var m := sys.log.sent[steps[k].message];
      && (r.Ok? <==>
            && ChainReachable(c, sys, steps[k]) && KeyLeft(c, sys, steps[k])
            && (forall i :: 0 <= i < k ==> Below(StoredBy(c, states[i], steps[i]), m.epoch, m.counter))
            && m.counter <= Following(sys.log.stored, m.epoch) + 25000)
      && (r.Ok? ==> r.value == m.plaintext)
  {
    hide Inv, Usable, Init, Established, Next, Run, Stores, StoredBy, NewEpoch, StaleFails, Below, Following;
    RunLength(c, alice, bob, states, steps);
    EveryRun(c, alice, bob, states, steps, k);
    var m := states[k].log.sent[steps[k].message];
    Ahead(c, alice, bob, states, steps, k, m.epoch, m.counter);
    ByIt(c, states[k], steps[k]);
  }

  lemma ByIt(c: Config, sys: System, step: Step)
    requires Usable(c) && ByTheLedger(c, sys, step)
    ensures Delivers(step) && step.message < |sys.log.sent| && sys.log.sent[step.message].epoch < |sys.log.epochs|
    ensures Next(c, sys, step).1 == Expected(c, sys, step)
    ensures StoredBy(c, sys, step) != [] ==> Expected(c, sys, step).Ok? && Stores(c, sys, step)
    ensures !Stores(c, sys, step) && Expected(c, sys, step).Ok? ==> Next(c, sys, step).0 == sys
  {
    hide Inv, Usable, Established, Next, Expected;
  }

  /// A message whose acceptance was stored is refused for ever after, as a duplicate while its chain
  /// is kept.
  lemma AtMostOnce(c: Config, alice: Sessions, bob: Sessions, states: seq<System>, steps: seq<Step>, i: nat, k: nat)
    requires Run(c, alice, bob, states, steps) && i < k < |steps|
    requires Delivers(steps[i]) && Delivers(steps[k]) && steps[i].message == steps[k].message
    requires Usable(c) && |states| == |steps| + 1 && StoredBy(c, states[i], steps[i]) != []
    ensures ByTheLedger(c, states[k], steps[k])
    ensures var r := Next(c, states[k], steps[k]).1;
      && r.Err?
      && (InWindow(states[k].log.sent[steps[k].message].epoch, PositionOf(states[k], steps[k])) ==> r == Err(DuplicateMessage))
  {
    hide Inv, Usable, Init, Established, Next, Run, Stores, NewEpoch, StaleFails, Following;
    EveryRun(c, alice, bob, states, steps, i);
    EveryRun(c, alice, bob, states, steps, k);
    ByIt(c, states[k], steps[k]);
    ByIt(c, states[i], steps[i]);
    Later(c, alice, bob, states, steps, i, k);
    var m := states[k].log.sent[steps[k].message];
    assert m == states[i].log.sent[steps[i].message];
    Ahead(c, alice, bob, states, steps, k, m.epoch, m.counter);
    assert Mark(m.epoch, m.counter) in StoredBy(c, states[i], steps[i]);
    assert !Below(StoredBy(c, states[i], steps[i]), m.epoch, m.counter);
    StartedWithKey(c, alice, bob, states, steps, k);
  }

  /// While Bob has no session there is no chain of his to find.
  lemma StartedWithKey(c: Config, alice: Sessions, bob: Sessions, states: seq<System>, steps: seq<Step>, k: nat)
    requires Run(c, alice, bob, states, steps) && k < |states|
    ensures Usable(c) && (!Established(c, states[k]) ==> BobPosition(states[k].log.epochs) == 0)
  {
    hide Usable, Run, LogOk, AliceInv, PartyNow, BobNow, Enabled, Grows;
    RunInv(c, alice, bob, states, steps, k);
  }

  /// A message of a new epoch makes Bob draw a ratchet key, which must not meet the identity element.
  predicate Ratchets(c: Config, sys: System, step: Step) {
    Delivers(step) && step.message < |sys.log.sent|
    && sys.log.sent[step.message].epoch == BobPosition(sys.log.epochs) + 1
    ==> NewEpoch(c.suite, sys.log.epochs, step.freshKey).Ok?
  }

  /// A message that was accepted is accepted again exactly when decryptPreKeyMessage accepted it in a
  /// session that existed already, which stores nothing.
  lemma AcceptedAgain(c: Config, sys: System, step: Step, after: System, again: Step)
    requires Laws(c) && Usable(c) && Inv(c, sys)
    requires IsStep(c, sys, step, after) && Succeeds(c, sys, step)
    requires Enabled(c, after, again) && Delivers(again) && again.message == step.message
    ensures Succeeds(c, after, again) <==> step.ToBob? && Established(c, sys) && Ratchets(c, sys, again)
  {
    hide Inv, Usable, Established, Next, NewEpoch, StaleFails, FreshKey, PqAgrees, NoCollision, ByTheLedger, Expected, Following, StoredBy;
    DeliveryStep(c, sys, step);
    StepGrows(c, sys, step);
    DeliveryStep(c, after, again);
    ByIt(c, sys, step);
    ByIt(c, after, again);
    var m := sys.log.sent[step.message];
    if Stores(c, sys, step) {
      OnceStored(c, sys, step, after, again);
    } else {
      TwiceExpected(c, sys, step, again);
    }
  }

  lemma OnceStored(c: Config, sys: System, step: Step, after: System, again: Step)
    requires Usable(c) && ByTheLedger(c, sys, step) && Next(c, sys, step).1.Ok? && Stores(c, sys, step)
    requires Grows(c, sys, step, after) && ByTheLedger(c, after, again) && again.message == step.message
    ensures Next(c, after, again).1.Err?
  {
    hide Inv, Usable, Established, Next, NewEpoch, StaleFails, Following, ByTheLedger, Stores;
    ByIt(c, sys, step);
    ByIt(c, after, again);
    var m := sys.log.sent[step.message];
    assert after.log.sent[again.message] == m;
    FollowingNext(sys.log.stored, Mark(m.epoch, m.counter), m.epoch);
    FollowingIsMaximum(after.log.stored, m.epoch, m.counter);
  }

  lemma TwiceExpected(c: Config, sys: System, step: Step, again: Step)
    requires Usable(c) && Enabled(c, sys, step) && Enabled(c, sys, again)
    requires Delivers(step) && Delivers(again) && again.message == step.message && !Stores(c, sys, step)
    requires sys.log.sent[step.message].epoch < |sys.log.epochs| && Expected(c, sys, step).Ok?
    ensures Expected(c, sys, again).Ok? <==> Ratchets(c, sys, again)
  {
    hide Inv, Usable, Established, Next, NewEpoch, StaleFails, FreshKey, PqAgrees, NoCollision, Following, Current, BobNow;
  }

  // ---------------------------------------------------------------- keys in step

  /// The party that ratcheted last holds the root and the sender chain derived from the other's
  /// root and the Diffie-Hellman value of their current ratchet keys.
  lemma RootsInStep(c: Config, sys: System)
    requires Usable(c) && Inv(c, sys) && Established(c, sys)
    ensures AliceNow(c, sys).Ok?
    ensures var a, b := AliceNow(c, sys).value, BobNow(c, sys);
      var (last, other) := if |sys.log.epochs| % 2 == 0 then (a, b) else (b, a);
      var step := RootStep(c.suite, other.root, other.senderPublic, last.senderPrivate);
      && step.Ok? && last.root == step.value.root
      && last.senderChain.key == ChainKeyAt(c.suite, step.value.chain, last.senderChain.index)
  {
    hide ChainsOk, Usable, AliceFirst, BobFirst, SentInv, SameSession, FirstEpochs, CreateChain, ChainKeyAt, BobNow, AliceNow, LogOk,
         Indexed, Following, CountIn;
    var n := |sys.log.epochs|;
    assert LinkedAt(c.suite, sys.log.epochs, n - 1);
  }

  /// The chain follows, from its start, the chain of an epoch of the given parity, and is stored
  /// under that epoch's ratchet key; it stands after the messages of the epoch that were stored.
  ghost predicate Tracks(s: Suite, log: Log, parity: nat, rc: ReceiverChain) {
    exists k :: 0 <= k < |log.epochs| && k % 2 == parity && rc.ratchet == Public(s, log.epochs[k])
                && rc.chain.key == ChainKeyAt(s, log.epochs[k].start, rc.chain.index)
                && rc.chain.index == Following(log.stored, k)
  }

  /// Every receiver chain that either party stores follows, from its start, the chain that the
  /// peer derived when it made the ratchet key the chain is stored under.
  lemma ChainsFollow(c: Config, sys: System, i: nat)
    requires Usable(c) && Inv(c, sys)
    ensures i < |AliceNow(c, sys).value.chains| ==>
      Tracks(c.suite, sys.log, 0, AliceNow(c, sys).value.chains[i])
    ensures i < |BobNow(c, sys).chains| ==>
      Tracks(c.suite, sys.log, 1, BobNow(c, sys).chains[i])
  {
    hide Usable, AliceFirst, BobFirst, LogOk, SameSession, FirstEpochs, PartyNow, NoSkipped, Tracks,
         AlicePosition, BobPosition, SameFixed, PreKeysOk, BobNow;
    if i < |AliceNow(c, sys).value.chains| {
      ChainFollows(c.suite, sys.log, AlicePosition(sys.log.epochs), AliceNow(c, sys).value, AliceFirst(c), i);
    }
    if i < |BobNow(c, sys).chains| {
      ChainFollows(c.suite, sys.log, BobPosition(sys.log.epochs), BobNow(c, sys), BobFirst(c), i);
    }
  }

  lemma ChainFollows(s: Suite, log: Log, t: nat, st: State, first: State, i: nat)
    requires PartyNow(s, log, t, st, first) && i < |st.chains|
    ensures Tracks(s, log, (t + 1) % 2, st.chains[i])
  {
    hide ChainKeyAt, KeysOfMessage, LedgerOk, Following, CountIn;
    var k := ChainEpoch(t, i);
    assert ChainOk(s, log.epochs[k], st.chains[i]);
    assert IndexedAt(log.stored, k, st.chains[i]);
  }

  // ---------------------------------------------------------------- when the ratchet turns

  /// How far a run without InnerToBob gets.
  predicate Stalled(c: Config, sys: System)
    requires Usable(c)
  {
    |sys.log.epochs| <= 4 && (|sys.log.epochs| >= 3 ==> Established(c, sys))
  }

  lemma StalledStep(c: Config, sys: System, step: Step)
    requires Laws(c) && Usable(c) && Inv(c, sys) && Enabled(c, sys, step) && Stalled(c, sys) && !step.InnerToBob?
    ensures Stalled(c, Next(c, sys, step).0)
  {
    hide Inv, Usable, Established, AliceSend, BobSend, AliceReceive, BobReceive, BobReceivePreKey, FreshKey, PqAgrees, NoCollision,
         DecryptIn, DecryptPreKeyIn, Expected, EncryptIn, AliceNow, BobNow;
    StepGrows(c, sys, step);
    if Delivers(step) {
      DeliveryStep(c, sys, step);
    } else if step.AliceSends? {
      AliceStep(c, sys, step.plaintext, step.random);
    } else if step.BobSends? {
      BobStep(c, sys, step.plaintext, step.random);
    } else {
      BadStep(c, sys, step);
    }
  }

  /// The initiator never stops wrapping its messages and decryptPreKeyMessage stores nothing once the
  /// session exists: unless the responder is given the inner messages, no run makes more than four
  /// ratchet keys.
  lemma {:induction false} FourEpochs(c: Config, alice: Sessions, bob: Sessions, states: seq<System>, steps: seq<Step>, k: nat)
    requires Run(c, alice, bob, states, steps) && k < |states|
    requires forall i :: 0 <= i < |steps| ==> !steps[i].InnerToBob?
    ensures Usable(c) && Stalled(c, states[k])
  {
    hide Inv, Enabled, Next, Usable, Established, Grows;
    if k == 0 {
      hide Run;
      RunLength(c, alice, bob, states, steps);
    } else {
      FourEpochs(c, alice, bob, states, steps, k - 1);
      RunInv(c, alice, bob, states, steps, k - 1);
      assert IsStep(c, states[k - 1], steps[k - 1], states[k]);
      StalledStep(c, states[k - 1], steps[k - 1]);
    }
  }
}
