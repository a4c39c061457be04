/** The bounded store of device-error messages (src/status.rs): an atomic i32 counter that hands out tokens
    outside the lock, and a queue of at most 64 messages under the lock. */
module StatusStore {
  import opened Abi

  const STORED_DEVICE_ERROR_LIMIT: nat := 64

  datatype Entry = Entry(id: I32, message: string)

  /** i32 arithmetic wraps. */
  function Wrap(n: int): (w: I32)
    ensures (w - n) % 0x1_0000_0000 == 0
    ensures -0x8000_0000 <= n < 0x8000_0000 ==> w == n
  {
    (n + 0x8000_0000) % 0x1_0000_0000 - 0x8000_0000
  }

  function Last<T>(s: seq<T>, n: nat): seq<T> {
    if |s| <= n then s else s[|s| - n..]
  }

  /** The message of the first entry that carries the token; tokens that are not positive are never found. */
  function Lookup(messages: seq<Entry>, token: I32): (r: Option<string>)
    ensures r.Some? ==> token > 0 && exists i :: 0 <= i < |messages| && messages[i] == Entry(token, r.value)
    ensures r.None? && token > 0 ==> forall i :: 0 <= i < |messages| ==> messages[i].id != token
  {
    if token <= 0 || messages == [] then None
    else if messages[0].id == token then Some(messages[0].message)
    else Lookup(messages[1..], token)
  }

  class DeviceErrorStore {
    var nextId: I32
    var messages: seq<Entry>

    constructor ()
      ensures nextId == 1 && messages == []
    {
      nextId := 1;
      messages := [];
    }

    /** The atomic fetch-and-add. */
    method AllocateId() returns (id: I32)
      modifies this`nextId
      ensures id == old(nextId) && nextId == Wrap(old(nextId) + 1)
    {
      id := nextId;
      nextId := Wrap(nextId + 1);
    }

    /** The critical section: append, then evict from the front down to the limit. */
    method PushMessage(id: I32, message: string)
      modifies this`messages
      ensures messages == Last(old(messages) + [Entry(id, message)], STORED_DEVICE_ERROR_LIMIT)
    {
      messages := messages + [Entry(id, message)];
      ghost var all := messages;
      while |messages| > STORED_DEVICE_ERROR_LIMIT
        invariant |messages| <= |all| && messages == all[|all| - |messages|..]
        invariant |all| >= STORED_DEVICE_ERROR_LIMIT ==> |messages| >= STORED_DEVICE_ERROR_LIMIT
        invariant |all| < STORED_DEVICE_ERROR_LIMIT ==> messages == all
        decreases |messages|
      {
        messages := messages[1..];
      }
    }

    /** Both steps by one caller with no other caller in between. */
    method Store(message: string) returns (id: I32)
      modifies this
      ensures id == old(nextId) && nextId == Wrap(old(nextId) + 1)
      ensures messages == Last(old(messages) + [Entry(id, message)], STORED_DEVICE_ERROR_LIMIT)
    {
      id := AllocateId();
      PushMessage(id, message);
    }

    method GetMessage(detail: I32) returns (r: Option<string>)
      ensures r == Lookup(messages, detail)
    {
      if detail <= 0 { return None; }
      for i := 0 to |messages|
        invariant Lookup(messages, detail) == Lookup(messages[i..], detail)
      {
        assert messages[i..][1..] == messages[i + 1..];
        if messages[i].id == detail { return Some(messages[i].message); }
      }
      assert messages[|messages|..] == [];
      return None;
    }
  }
}

/** Arbitrarily many threads storing messages: a thread allocates its token without the lock and pushes its
    message later, so tokens may reach the queue in any order. */
module StatusThreads {
  import opened Abi
  import opened StatusStore

  /** A message with the number of the allocation that gave it its token. */
  datatype Ticketed = Ticketed(ticket: nat, id: I32, message: string)

  /** The shared store, what each thread has allocated but not yet pushed, and the history of pushes. */
  datatype System = System(
    nextId: I32, queue: seq<Entry>, inFlight: map<nat, Ticketed>, issued: nat, pushed: seq<Ticketed>)

  const START: System := System(1, [], map[], 0, [])

  datatype Action = Allocate(thread: nat, message: string) | Push(thread: nat) | Idle

  /** One atomic step; Idle stands for the lookups, which change nothing. */
  predicate Step(s: System, a: Action, s': System) {
    match a
    case Allocate(thread, message) =>
      && thread !in s.inFlight
      && s' == s.(nextId := Wrap(s.nextId + 1), issued := s.issued + 1,
                  inFlight := s.inFlight[thread := Ticketed(s.issued, s.nextId, message)])
    case Push(thread) =>
      && thread in s.inFlight
      && s' == s.(queue := Last(s.queue + [EntryOf(s.inFlight[thread])], STORED_DEVICE_ERROR_LIMIT),
                  pushed := s.pushed + [s.inFlight[thread]],
                  inFlight := s.inFlight - {thread})
    case Idle => s' == s
  }

  predicate Run(states: seq<System>, actions: seq<Action>) {
    && |states| == |actions| + 1
    && forall i :: 0 <= i < |actions| ==> Step(states[i], actions[i], states[i + 1])
  }

  /** The store's own atomic operations take exactly these steps. */
  method Perform(store: DeviceErrorStore, s: System, a: Action) returns (s': System)
    requires store.nextId == s.nextId && store.messages == s.queue
    requires a.Allocate? ==> a.thread !in s.inFlight
    requires a.Push? ==> a.thread in s.inFlight
    modifies store
    ensures Step(s, a, s') && store.nextId == s'.nextId && store.messages == s'.queue
  {
    s' := s;
    match a
    case Allocate(thread, message) =>
      var id := store.AllocateId();
      s' := s.(nextId := Wrap(s.nextId + 1), issued := s.issued + 1,
               inFlight := s.inFlight[thread := Ticketed(s.issued, id, message)]);
    case Push(thread) =>
      var pending := s.inFlight[thread];
      store.PushMessage(pending.id, pending.message);
      s' := s.(queue := Last(s.queue + [EntryOf(pending)], STORED_DEVICE_ERROR_LIMIT),
               pushed := s.pushed + [pending], inFlight := s.inFlight - {thread});
    case Idle =>
  }

  function EntryOf(t: Ticketed): Entry { Entry(t.id, t.message) }

  function Entries(ts: seq<Ticketed>): seq<Entry> {
    seq(|ts|, i requires 0 <= i < |ts| => EntryOf(ts[i]))
  }

  /** The token of allocation number `ticket`, counting from 0. */
  function TokenOf(ticket: nat): I32 { Wrap(ticket + 1) }

  predicate Genuine(t: Ticketed, issued: nat) { t.ticket < issued && t.id == TokenOf(t.ticket) }

  /** Every allocation is genuine, and no ticket occurs twice among the pushed and the pending. */
  predicate TicketsOk(s: System) {
    && (forall i :: 0 <= i < |s.pushed| ==> Genuine(s.pushed[i], s.issued))
    && (forall t :: t in s.inFlight ==> Genuine(s.inFlight[t], s.issued))
    && (forall i, j :: 0 <= i < j < |s.pushed| ==> s.pushed[i].ticket != s.pushed[j].ticket)
    && (forall t, u :: t in s.inFlight && u in s.inFlight && t != u ==> s.inFlight[t].ticket != s.inFlight[u].ticket)
    && (forall t, i :: t in s.inFlight && 0 <= i < |s.pushed| ==> s.inFlight[t].ticket != s.pushed[i].ticket)
  }

  predicate Invariant(s: System) {
    && s.nextId == TokenOf(s.issued)
    && |s.pushed| + |s.inFlight| == s.issued
    && TicketsOk(s)
    && s.queue == Entries(Last(s.pushed, STORED_DEVICE_ERROR_LIMIT))
  }

  lemma WrapStep(n: int)
    ensures Wrap(Wrap(n) + 1) == Wrap(n + 1)
  {}

  lemma EvictionKeepsLast(pushed: seq<Ticketed>, t: Ticketed)
    ensures Last(Entries(Last(pushed, STORED_DEVICE_ERROR_LIMIT)) + [EntryOf(t)], STORED_DEVICE_ERROR_LIMIT)
         == Entries(Last(pushed + [t], STORED_DEVICE_ERROR_LIMIT))
  {}

  lemma AllocateKeepsTickets(s: System, thread: nat, message: string, s': System)
    requires s.nextId == TokenOf(s.issued) && TicketsOk(s) && Step(s, Allocate(thread, message), s')
    ensures TicketsOk(s')
  {}

  lemma OneMoreInFlight(inFlight: map<nat, Ticketed>, thread: nat, t: Ticketed)
    requires thread !in inFlight
    ensures |inFlight[thread := t]| == |inFlight| + 1
  {
    assert inFlight[thread := t].Keys == inFlight.Keys + {thread};
  }

  lemma AllocateKeepsInvariant(s: System, thread: nat, message: string, s': System)
    requires Invariant(s) && Step(s, Allocate(thread, message), s')
    ensures Invariant(s')
  {
    AllocateKeepsTickets(s, thread, message, s');
    WrapStep(s.issued + 1);
    OneMoreInFlight(s.inFlight, thread, Ticketed(s.issued, s.nextId, message));
  }

  lemma PushKeepsInvariant(s: System, thread: nat, s': System)
    requires Invariant(s) && Step(s, Push(thread), s')
    ensures Invariant(s')
  {
    var t := s.inFlight[thread];
    EvictionKeepsLast(s.pushed, t);
    assert s'.inFlight.Keys == s.inFlight.Keys - {thread};
    assert |s'.inFlight| == |s.inFlight| - 1;
    forall i, j | 0 <= i < j < |s'.pushed| ensures s'.pushed[i].ticket != s'.pushed[j].ticket {
      assert s'.pushed[i] == s.pushed[i];
      assert s'.pushed[j] == if j == |s.pushed| then t else s.pushed[j];
    }
  }

  lemma StepKeepsInvariant(s: System, a: Action, s': System)
    requires Invariant(s) && Step(s, a, s')
    ensures Invariant(s')
  {
    match a
    case Allocate(thread, message) => AllocateKeepsInvariant(s, thread, message, s');
    case Push(thread) => PushKeepsInvariant(s, thread, s');
    case Idle =>
  }

  /** Under every interleaving the queue is exactly the last 64 pushes, every allocated token is either still in
      flight or was pushed exactly once, and the counter is the token of the next allocation. */
  lemma {:induction false} EveryRunKeepsInvariant(states: seq<System>, actions: seq<Action>, k: nat)
    requires Run(states, actions) && states[0] == START && k < |states|
    ensures Invariant(states[k])
  {
    if k != 0 {
      EveryRunKeepsInvariant(states, actions, k - 1);
      StepKeepsInvariant(states[k - 1], actions[k - 1], states[k]);
    } else {
      assert Entries(Last(START.pushed, STORED_DEVICE_ERROR_LIMIT)) == [];
    }
  }

  // ----- tokens -----

  const TOKENS: nat := 0x1_0000_0000

  /** Two allocations are twins when a whole number of counter cycles lies between them. */
  predicate Twins(a: nat, b: nat) { (a - b) % TOKENS == 0 }

  /** Exactly the twins of an allocation carry its token. */
  lemma TwinsShareTheirToken(a: nat, b: nat)
    ensures TokenOf(a) == TokenOf(b) <==> Twins(a, b)
  {}

  /** Tokens repeat only after 2^32 allocations. */
  lemma TokensDiffer(a: nat, b: nat)
    requires a < b < TOKENS + a
    ensures TokenOf(a) != TokenOf(b)
  {}

  lemma NearbyAreNoTwins(a: nat, b: nat)
    requires a < TOKENS && b < TOKENS
    ensures Twins(a, b) <==> a == b
  {}

  lemma RemainderIs(x: int, q: int, r: nat)
    requires x == q * TOKENS + r && r < TOKENS
    ensures x % TOKENS == r
  {}

  /** The allocations whose token a lookup accepts. */
  predicate Findable(ticket: nat) { ticket % TOKENS < 0x7fff_ffff }

  /** In every cycle of the counter the first 2^31 - 1 tokens are 1, 2, ...; the others are not positive. */
  lemma TokenSigns(ticket: nat)
    ensures TokenOf(ticket) > 0 <==> Findable(ticket)
    ensures Findable(ticket) ==> TokenOf(ticket) == ticket % TOKENS + 1
  {
    var q, r := ticket / TOKENS, ticket % TOKENS;
    if r < 0x7fff_ffff {
      RemainderIs(ticket + 1 + 0x8000_0000, q, r + 1 + 0x8000_0000);
    } else {
      RemainderIs(ticket + 1 + 0x8000_0000, q + 1, r - 0x7fff_ffff);
    }
  }

  lemma QueueEntryIsPush(s: System, i: nat)
    requires Invariant(s) && i < |s.queue|
    ensures var k := |s.pushed| - |s.queue| + i;
            0 <= k < |s.pushed| && s.queue[i] == EntryOf(s.pushed[k]) && Genuine(s.pushed[k], s.issued)
  {}

  /** While fewer than 2^31 - 1 tokens are out, all tokens queued or in flight are positive, pairwise distinct and
      below the counter. */
  lemma TokensAreDistinctAndBelowCounter(s: System)
    requires Invariant(s) && s.issued < 0x7fff_ffff
    ensures forall i :: 0 <= i < |s.queue| ==> 0 < s.queue[i].id < s.nextId
    ensures forall t :: t in s.inFlight ==> 0 < s.inFlight[t].id < s.nextId
    ensures forall i, j :: 0 <= i < j < |s.queue| ==> s.queue[i].id != s.queue[j].id
    ensures forall t, u :: t in s.inFlight && u in s.inFlight && t != u ==> s.inFlight[t].id != s.inFlight[u].id
    ensures forall t, i :: t in s.inFlight && 0 <= i < |s.queue| ==> s.inFlight[t].id != s.queue[i].id
  {
    var start := |s.pushed| - |s.queue|;
    TokenSigns(s.issued);
    forall i | 0 <= i < |s.queue| ensures s.queue[i].id == s.pushed[start + i].ticket + 1 < s.nextId {
      QueueEntryIsPush(s, i);
      TokenSigns(s.pushed[start + i].ticket);
    }
    forall t | t in s.inFlight ensures s.inFlight[t].id == s.inFlight[t].ticket + 1 < s.nextId {
      TokenSigns(s.inFlight[t].ticket);
    }
    forall i, j | 0 <= i < j < |s.queue| ensures s.queue[i].id != s.queue[j].id {
      assert s.pushed[start + i].ticket != s.pushed[start + j].ticket;
    }
  }

  /** The bound is sharp: the counter itself wraps below every token with allocation number 2^31 - 2. */
  lemma CounterWrapsAtTheBound(s: System)
    requires Invariant(s) && s.issued == 0x7fff_ffff
    ensures s.nextId == -0x8000_0000
  {}

  // ----- lookups -----

  predicate Retained(s: System, k: nat) { k < |s.pushed| <= k + STORED_DEVICE_ERROR_LIMIT }

  function OldestRetained(s: System): nat {
    if |s.pushed| <= STORED_DEVICE_ERROR_LIMIT then 0 else |s.pushed| - STORED_DEVICE_ERROR_LIMIT
  }

  function FirstWith(pushed: seq<Ticketed>, token: I32, from: nat): (r: Option<nat>)
    requires from <= |pushed|
    ensures r.Some? ==> from <= r.value < |pushed| && pushed[r.value].id == token
    ensures forall j :: from <= j < (if r.Some? then r.value else |pushed|) ==> pushed[j].id != token
    decreases |pushed| - from
  {
    if from == |pushed| then None
    else if pushed[from].id == token then Some(from)
    else FirstWith(pushed, token, from + 1)
  }

  /** The push whose message a lookup returns: the oldest retained one that carries the token. */
  function AnsweringPush(s: System, token: I32): Option<nat> {
    if token <= 0 then None else FirstWith(s.pushed, token, OldestRetained(s))
  }

  lemma {:induction false} LookupInTail(pushed: seq<Ticketed>, token: I32, from: nat)
    requires from <= |pushed| && token > 0
    ensures var r := FirstWith(pushed, token, from);
            Lookup(Entries(pushed[from..]), token) == if r.Some? then Some(pushed[r.value].message) else None
    decreases |pushed| - from
  {
    if from < |pushed| {
      LookupInTail(pushed, token, from + 1);
      assert Entries(pushed[from..])[1..] == Entries(pushed[from + 1..]);
    }
  }

  lemma LookupIsThePushs(s: System, token: I32)
    requires Invariant(s)
    ensures var r := AnsweringPush(s, token);
            Lookup(s.queue, token) == if r.Some? then Some(s.pushed[r.value].message) else None
  {
    assert Last(s.pushed, STORED_DEVICE_ERROR_LIMIT) == s.pushed[OldestRetained(s)..];
    if token > 0 { LookupInTail(s.pushed, token, OldestRetained(s)); }
  }

  lemma PushedTokens(s: System, j: nat, k: nat)
    requires Invariant(s) && j < |s.pushed| && k < |s.pushed|
    ensures s.pushed[j].id == s.pushed[k].id <==> Twins(s.pushed[j].ticket, s.pushed[k].ticket)
    ensures s.pushed[k].id > 0 <==> Findable(s.pushed[k].ticket)
  {
    assert Genuine(s.pushed[j], s.issued) && Genuine(s.pushed[k], s.issued);
    TwinsShareTheirToken(s.pushed[j].ticket, s.pushed[k].ticket);
    TokenSigns(s.pushed[k].ticket);
  }

  lemma EarlyTokensAreFindable(s: System, k: nat)
    requires Invariant(s) && s.issued < 0x8000_0000 && k < |s.pushed|
    ensures Findable(s.pushed[k].ticket)
  {
    assert Genuine(s.pushed[k], s.issued);
  }

  /** A retained twin stands between push `k` and its lookup: any one once `k` is evicted, an older one before. */
  ghost predicate Shadowed(s: System, k: nat)
    requires k < |s.pushed|
  {
    exists j :: OldestRetained(s) <= j < |s.pushed| && (Retained(s, k) ==> j < k) &&
                Twins(s.pushed[j].ticket, s.pushed[k].ticket)
  }

  function OwnAnswer(s: System, k: nat): Option<nat>
    requires k < |s.pushed|
  {
    if Findable(s.pushed[k].ticket) && Retained(s, k) then Some(k) else None
  }

  /** A token is answered by its own push exactly while that is among the last 64, unless a twin shadows it. */
  lemma OwnAnswerIff(s: System, k: nat)
    requires Invariant(s) && k < |s.pushed|
    ensures AnsweringPush(s, s.pushed[k].id) == OwnAnswer(s, k) <==> !Findable(s.pushed[k].ticket) || !Shadowed(s, k)
  {
    forall j | 0 <= j < |s.pushed| { PushedTokens(s, j, k); }
  }

  lemma PushedTokensDiffer(s: System, j: nat, k: nat)
    requires Invariant(s) && s.issued <= TOKENS && j < |s.pushed| && k < |s.pushed|
    ensures Twins(s.pushed[j].ticket, s.pushed[k].ticket) <==> j == k
  {
    var p, q := s.pushed[j], s.pushed[k];
    assert Genuine(p, s.issued) && Genuine(q, s.issued);
    assert j != k ==> p.ticket != q.ticket;
    NearbyAreNoTwins(p.ticket, q.ticket);
  }

  /** No push is shadowed before tokens repeat. */
  lemma NothingIsShadowedBeforeTheWrap(s: System, k: nat)
    requires Invariant(s) && s.issued <= TOKENS && k < |s.pushed|
    ensures !Shadowed(s, k)
  {
    forall j | 0 <= j < |s.pushed| { PushedTokensDiffer(s, j, k); }
  }

  /** A token is answered exactly while its own push is among the last 64, and then with the message pushed under
      it, unless a twin shadows it; for the first 2^32 allocations none does. */
  lemma LookupIsExact(s: System, k: nat)
    requires Invariant(s) && k < |s.pushed|
    ensures !Shadowed(s, k) || s.issued <= TOKENS ==>
      Lookup(s.queue, s.pushed[k].id) ==
        if Findable(s.pushed[k].ticket) && |s.pushed| - k <= STORED_DEVICE_ERROR_LIMIT
        then Some(s.pushed[k].message) else None
  {
    if s.issued <= TOKENS { NothingIsShadowedBeforeTheWrap(s, k); }
    OwnAnswerIff(s, k);
    PushedTokens(s, k, k);
    LookupIsThePushs(s, s.pushed[k].id);
  }

  /** The other pushes that carry the token of push `k` were allocated whole counter cycles earlier or later; for
      the first 2^32 allocations there is none. */
  ghost predicate TokenIsItsOwn(s: System, token: I32, k: nat)
    requires k < |s.pushed|
  {
    && (forall j :: 0 <= j < |s.pushed| ==>
          (s.pushed[j].id == token <==> Twins(s.pushed[j].ticket, s.pushed[k].ticket)))
    && (s.issued <= TOKENS ==> forall j :: 0 <= j < |s.pushed| && j != k ==> s.pushed[j].id != token)
  }

  lemma PushedTokensAreTheirOwn(s: System, k: nat)
    requires Invariant(s) && k < |s.pushed|
    ensures TokenIsItsOwn(s, s.pushed[k].id, k)
  {
    forall j | 0 <= j < |s.pushed| { PushedTokens(s, j, k); }
    if s.issued <= TOKENS {
      forall j | 0 <= j < |s.pushed| { PushedTokensDiffer(s, j, k); }
    }
  }

  /** A lookup that succeeds returns the message of a push that carries the token; and for the first 2^32
      allocations that push is the only one, so that a caller never reads another thread's message. */
  lemma LookupIsNeverAnothers(s: System, token: I32)
    requires Invariant(s) && Lookup(s.queue, token).Some?
    ensures exists k :: 0 <= k < |s.pushed| && s.pushed[k].id == token
                        && Lookup(s.queue, token) == Some(s.pushed[k].message)
                        && TokenIsItsOwn(s, token, k)
  {
    LookupIsThePushs(s, token);
    var k := AnsweringPush(s, token).value;
    PushedTokensAreTheirOwn(s, k);
  }

  lemma {:induction false} HistoryOnlyGrows(states: seq<System>, actions: seq<Action>, m: nat, n: nat)
    requires Run(states, actions) && m <= n < |states|
    ensures states[m].pushed <= states[n].pushed && states[m].issued <= states[n].issued
    decreases n
  {
    if m < n {
      HistoryOnlyGrows(states, actions, m, n - 1);
      assert Step(states[n - 1], actions[n - 1], states[n]);
    }
  }

  /** Once evicted, a token stays unanswered for the rest of the run, unless a push retained later is its twin. */
  lemma EvictedStaysEvicted(states: seq<System>, actions: seq<Action>, m: nat, n: nat, k: nat)
    requires Run(states, actions) && states[0] == START && m <= n < |states|
    requires k < |states[m].pushed| && Lookup(states[m].queue, states[m].pushed[k].id) == None
    ensures k < |states[n].pushed| && states[n].pushed[k] == states[m].pushed[k]
    ensures Lookup(states[n].queue, states[n].pushed[k].id) == None <==>
            !Findable(states[n].pushed[k].ticket) || !Shadowed(states[n], k)
    ensures states[n].issued <= TOKENS ==> Lookup(states[n].queue, states[n].pushed[k].id) == None
  {
    HistoryOnlyGrows(states, actions, m, n);
    EveryRunKeepsInvariant(states, actions, m);
    EveryRunKeepsInvariant(states, actions, n);
    UnansweredIsEvicted(states[m], k);
    OwnAnswerIff(states[n], k);
    PushedTokens(states[n], k, k);
    LookupIsThePushs(states[n], states[n].pushed[k].id);
    if states[n].issued <= TOKENS { NothingIsShadowedBeforeTheWrap(states[n], k); }
  }

  lemma UnansweredIsEvicted(s: System, k: nat)
    requires Invariant(s) && k < |s.pushed| && Lookup(s.queue, s.pushed[k].id) == None
    ensures !Findable(s.pushed[k].ticket) || !Retained(s, k)
  {
    PushedTokens(s, k, k);
    LookupIsThePushs(s, s.pushed[k].id);
  }

  // ----- one caller at a time -----

  /** Every allocation is followed at once by its own push, as when a single thread calls the library. */
  predicate Sequential(actions: seq<Action>) {
    forall i :: 0 <= i < |actions| && actions[i].Allocate? ==>
      i + 1 < |actions| && actions[i + 1] == Push(actions[i].thread)
  }

  predicate InOrder(s: System) {
    |s.pushed| == s.issued && s.inFlight == map[] && forall i :: 0 <= i < |s.pushed| ==> s.pushed[i].ticket == i
  }

  /** A sequential run pushes in allocation order: between calls nothing is in flight. */
  lemma {:induction false} SequentialRunsPushInOrder(states: seq<System>, actions: seq<Action>, k: nat)
    requires Run(states, actions) && Sequential(actions) && states[0] == START && k < |states|
    ensures if k > 0 && actions[k - 1].Allocate? then InOrder(states[k - 1]) else InOrder(states[k])
  {
    if k > 0 {
      SequentialRunsPushInOrder(states, actions, k - 1);
      assert Step(states[k - 1], actions[k - 1], states[k]);
      if k > 1 && actions[k - 2].Allocate? {
        assert Step(states[k - 2], actions[k - 2], states[k - 1]);
        assert actions[k - 1] == Push(actions[k - 2].thread);
        assert states[k].inFlight == map[];
      }
    }
  }

  lemma RetainedIsNotShadowedInOrder(s: System, k: nat)
    requires InOrder(s) && Retained(s, k)
    ensures !Shadowed(s, k)
  {
    forall j | OldestRetained(s) <= j < k ensures !Twins(s.pushed[j].ticket, s.pushed[k].ticket) {
      TokensDiffer(j, k);
      TwinsShareTheirToken(j, k);
    }
  }

  /** With one caller at a time, each of the 64 most recent messages is answered under its token, if that is
      positive, however many came before; and for the first 2^32 messages no other token is answered. */
  lemma SequentialLookup(states: seq<System>, actions: seq<Action>, k: nat, ticket: nat)
    requires Run(states, actions) && Sequential(actions) && states[0] == START && k < |states|
    requires k > 0 ==> !actions[k - 1].Allocate?
    requires ticket < states[k].issued
    ensures |states[k].pushed| == states[k].issued
    ensures var answer := Lookup(states[k].queue, TokenOf(ticket));
            var recent := Findable(ticket) && states[k].issued - ticket <= 64;
            && (recent ==> answer == Some(states[k].pushed[ticket].message))
            && (!recent && states[k].issued <= TOKENS ==> answer == None)
  {
    SequentialRunsPushInOrder(states, actions, k);
    EveryRunKeepsInvariant(states, actions, k);
    var s := states[k];
    assert Genuine(s.pushed[ticket], s.issued);
    if Retained(s, ticket) { RetainedIsNotShadowedInOrder(s, ticket); }
    LookupIsExact(s, ticket);
  }

  // ----- after 2^32 messages -----

  /** The state once one caller has stored these messages. */
  function StoredBy(ms: seq<string>): System {
    var pushed := seq(|ms|, i requires 0 <= i < |ms| => Ticketed(i, TokenOf(i), ms[i]));
    System(TokenOf(|ms|), Entries(Last(pushed, STORED_DEVICE_ERROR_LIMIT)), map[], |ms|, pushed)
  }

  lemma {:induction false} StoringReaches(ms: seq<string>) returns (states: seq<System>, actions: seq<Action>)
    ensures Run(states, actions) && Sequential(actions)
    ensures states[0] == START && states[|states| - 1] == StoredBy(ms)
  {
    if ms == [] {
      states, actions := [START], [];
      assert Entries(Last(START.pushed, STORED_DEVICE_ERROR_LIMIT)) == [];
    } else {
      var n, message := |ms| - 1, ms[|ms| - 1];
      states, actions := StoringReaches(ms[..n]);
      var before := StoredBy(ms[..n]);
      var t := Ticketed(n, TokenOf(n), message);
      var between := before.(nextId := TokenOf(n + 1), issued := n + 1, inFlight := map[0 := t]);
      WrapStep(n + 1);
      EvictionKeepsLast(before.pushed, t);
      assert StoredBy(ms).pushed == before.pushed + [t];
      assert between.inFlight - {0} == map[];
      assert Step(before, Allocate(0, message), between) && Step(between, Push(0), StoredBy(ms));
      states, actions := states + [between, StoredBy(ms)], actions + [Allocate(0, message), Push(0)];
    }
  }

  lemma OnlyTheTwinIsRetained(ms: seq<string>, k: nat)
    requires Findable(k) && k + TOKENS < |ms| <= k + TOKENS + STORED_DEVICE_ERROR_LIMIT
    ensures AnsweringPush(StoredBy(ms), TokenOf(k)) == Some(k + TOKENS)
  {
    var s, twin := StoredBy(ms), k + TOKENS;
    TokenSigns(k);
    TwinsShareTheirToken(twin, k);
    forall j | OldestRetained(s) <= j < twin ensures s.pushed[j].id != TokenOf(k) {
      TokensDiffer(j, twin);
    }
    assert OldestRetained(s) <= twin < |s.pushed| && s.pushed[twin].id == TokenOf(k);
  }

  /** The counter wraps onto tokens still in use: after 2^32 further messages a caller's token is answered with
      another message, in a state that one caller reaches. */
  lemma TokenIsReused(ms: seq<string>, k: nat) returns (states: seq<System>, actions: seq<Action>)
    requires Findable(k) && k + TOKENS < |ms| <= k + TOKENS + STORED_DEVICE_ERROR_LIMIT
    ensures Run(states, actions) && Sequential(actions)
    ensures states[0] == START && states[|states| - 1] == StoredBy(ms)
    ensures StoredBy(ms).pushed[k] == Ticketed(k, TokenOf(k), ms[k])
    ensures Lookup(StoredBy(ms).queue, TokenOf(k)) == Some(ms[k + TOKENS])
  {
    states, actions := StoringReaches(ms);
    EveryRunKeepsInvariant(states, actions, |states| - 1);
    OnlyTheTwinIsRetained(ms, k);
    LookupIsThePushs(StoredBy(ms), TokenOf(k));
  }
}
