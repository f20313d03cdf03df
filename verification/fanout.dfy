/** Asking every provider at once (internal/providers/registry.go, lookupBarcode).
 */
module Fanout {
  // Each provider runs on its own and sends one result to a channel with room for all
  // of them. A collector takes results as they come until every provider has
  // answered, a deadline passes or the caller gives up.

  type Book = nat

  datatype Status = Missed | NoRecord | Errored | Answered

  /** What one provider's call came back with. */
  datatype Reply = Failure | Nothing | Found(book: Book)

  function StatusOf(r: Reply): Status {
    match r
    case Failure => Errored
    case Nothing => NoRecord
    case Found(_) => Answered
  }

  /** A result on the channel: who sent it, and what. */
  datatype Message = Message(i: nat, reply: Reply)

  function BookOf(r: Reply): seq<Book> {
    if r.Found? then [r.book] else []
  }

  // ---- the collector -----------------------------------------------------------

  /** The local state of the collecting loop. */
  datatype Collector = Collector(
    statuses: seq<Status>, out: seq<Book>, remaining: int, armed: bool, returned: bool)

  /** The case a select takes. */
  datatype Pick = Got(message: Message) | Deadline | Overall | Cancelled

  function Begin(n: nat): Collector {
    Collector(seq(n, _ => Missed), [], n, false, n == 0)
  }

  /** One turn of the loop. The short deadline starts with the first result. */
  function Take(c: Collector, p: Pick): Collector
    requires p.Got? ==> p.message.i < |c.statuses|
    ensures |Take(c, p).statuses| == |c.statuses|
  {
    if c.returned then c
    else match p
      case Got(m) =>
        Collector(c.statuses[m.i := StatusOf(m.reply)], c.out + BookOf(m.reply),
                  c.remaining - 1, true, c.remaining - 1 == 0)
      case _ => c.(returned := true)
  }

  /** Every message comes from one of n providers. */
  ghost predicate InRange(ps: seq<Pick>, n: nat) {
    forall p :: p in ps && p.Got? ==> p.message.i < n
  }

  function TakeAll(c: Collector, ps: seq<Pick>): (r: Collector)
    requires InRange(ps, |c.statuses|)
    ensures |r.statuses| == |c.statuses|
  {
    if ps == [] then c
    else Take(TakeAll(c, ps[..|ps| - 1]), ps[|ps| - 1])
  }

  /** lookupBarcode's loop, for whatever the selects pick. */
  method Collect(n: nat, picks: seq<Pick>) returns (c: Collector)
    requires InRange(picks, n)
    ensures c == TakeAll(Begin(n), picks)
  {
    var statuses: seq<Status>, out, remaining, armed, returned := seq(n, _ => Missed), [], n as int, false, n == 0;
    ghost var start := Begin(n);
    for k := 0 to |picks|
      invariant |statuses| == n
      invariant Collector(statuses, out, remaining, armed, returned) == TakeAll(start, picks[..k])
    {
      assert picks[..k + 1][..k] == picks[..k];
      if !returned {
        match picks[k] {
          case Got(m) =>
            statuses := statuses[m.i := StatusOf(m.reply)];
            if m.reply.Found? { out := out + [m.reply.book]; }
            remaining := remaining - 1;
            if !armed { armed := true; }
            returned := remaining == 0;
          case _ =>
            returned := true;
        }
      }
    }
    assert picks[..|picks|] == picks;
    c := Collector(statuses, out, remaining, armed, returned);
  }

  // ---- the whole system --------------------------------------------------------

  /** The collector, the providers still out, every message sent in order, how many of
      them the collector has taken, and which timers have gone off. */
  datatype System = System(
    c: Collector, out: set<nat>, sent: seq<Message>, taken: nat,
    deadline: bool, overall: bool, cancelled: bool)

  datatype Event =
    | Replies(i: nat, reply: Reply)   // a provider's call returns and it sends
    | DeadlinePasses | OverallPasses | CallerGivesUp
    | SelectsMessage | SelectsDeadline | SelectsOverall | SelectsCancel

  /** How many messages lie on the channel. */
  function Queued(s: System): int { |s.sent| - s.taken }

  /** What can happen. A send waits while the channel is full. */
  predicate Enabled(s: System, n: nat, e: Event) {
    match e
    case Replies(i, _) => i in s.out && Queued(s) < n
    case DeadlinePasses => s.c.armed
    case OverallPasses => true
    case CallerGivesUp => true
    case SelectsMessage => !s.c.returned && s.taken < |s.sent| && s.sent[s.taken].i < |s.c.statuses|
    case SelectsDeadline => !s.c.returned && s.deadline
    case SelectsOverall => !s.c.returned && s.overall
    case SelectsCancel => !s.c.returned && s.cancelled
  }

  function Next(s: System, n: nat, e: Event): System {
    if !Enabled(s, n, e) then s
    else match e
      case Replies(i, r) => s.(out := s.out - {i}, sent := s.sent + [Message(i, r)])
      case DeadlinePasses => s.(deadline := true)
      case OverallPasses => s.(overall := true)
      case CallerGivesUp => s.(cancelled := true)
      case SelectsMessage => s.(c := Take(s.c, Got(s.sent[s.taken])), taken := s.taken + 1)
      case SelectsDeadline => s.(c := Take(s.c, Deadline))
      case SelectsOverall => s.(c := Take(s.c, Overall))
      case SelectsCancel => s.(c := Take(s.c, Cancelled))
  }

  function Everyone(n: nat): (s: set<nat>)
    ensures forall i :: i in s <==> 0 <= i < n
  {
    if n == 0 then {} else Everyone(n - 1) + {n - 1}
  }

  lemma {:induction false} EveryoneIsN(n: nat)
    ensures |Everyone(n)| == n
  {
    if n > 0 {
      EveryoneIsN(n - 1);
    }
  }

  function Init(n: nat): System {
    System(Begin(n), Everyone(n), [], 0, false, false, false)
  }

  function Run(s: System, n: nat, es: seq<Event>): System {
    if es == [] then s else Next(Run(s, n, es[..|es| - 1]), n, es[|es| - 1])
  }

  // ---- what holds throughout ---------------------------------------------------

  function Books(ms: seq<Message>): seq<Book> {
    if ms == [] then [] else Books(ms[..|ms| - 1]) + BookOf(ms[|ms| - 1].reply)
  }

  function CountMissed(ss: seq<Status>): nat {
    if ss == [] then 0 else CountMissed(ss[..|ss| - 1]) + if ss[|ss| - 1] == Missed then 1 else 0
  }

  /** Provider i's message is among the first k. */
  ghost predicate Has(ms: seq<Message>, k: nat, i: nat)
    requires k <= |ms|
  {
    exists j :: 0 <= j < k && ms[j].i == i
  }

  /** Every provider is in one place, still out or in one message sent. */
  ghost predicate OneEach(s: System, n: nat) {
    && |s.out| + |s.sent| == n && s.taken <= |s.sent|
    && (forall i :: i in s.out ==> i < n)
    && (forall k :: 0 <= k < |s.sent| ==> s.sent[k].i < n && s.sent[k].i !in s.out)
    && (forall k, l :: 0 <= k < l < |s.sent| ==> s.sent[k].i != s.sent[l].i)
  }

  /** The statuses are those of the messages taken, the rest still "missed". */
  ghost predicate StatusesRight(s: System, n: nat)
    requires OneEach(s, n)
  {
    && |s.c.statuses| == n
    && (forall k :: 0 <= k < s.taken ==> s.c.statuses[s.sent[k].i] == StatusOf(s.sent[k].reply))
    && (forall i :: 0 <= i < n && s.c.statuses[i] != Missed ==> Has(s.sent, s.taken, i))
  }

  ghost predicate Inv(s: System, n: nat) {
    && OneEach(s, n) && StatusesRight(s, n)
    && s.c.remaining == CountMissed(s.c.statuses) == n - s.taken
    && s.c.out == Books(s.sent[..s.taken])
    && (s.c.armed <==> s.taken > 0)
    // It returns when everybody has answered or something went off, not before.
    && (s.c.remaining == 0 ==> s.c.returned)
    && (s.c.returned ==> s.c.remaining == 0 || s.deadline || s.overall || s.cancelled)
  }

  lemma {:induction false} MissedDrops(ss: seq<Status>, i: nat, to: Status)
    requires i < |ss| && ss[i] == Missed && to != Missed
    ensures CountMissed(ss[i := to]) == CountMissed(ss) - 1
    decreases |ss|
  {
    var n := |ss| - 1;
    if i == n {
      assert ss[i := to][..n] == ss[..n];
    } else {
      assert ss[i := to][..n] == ss[..n][i := to];
      MissedDrops(ss[..n], i, to);
    }
  }

  lemma {:induction false} AllMissed(ss: seq<Status>)
    requires forall i :: 0 <= i < |ss| ==> ss[i] == Missed
    ensures CountMissed(ss) == |ss|
  {
    if ss != [] {
      AllMissed(ss[..|ss| - 1]);
    }
  }

  lemma InitHolds(n: nat)
    ensures Inv(Init(n), n)
  {
    EveryoneIsN(n);
    AllMissed(Begin(n).statuses);
  }

  /** The next message on the channel is from a provider still "missed". */
  lemma TakesMissed(s: System, n: nat)
    requires OneEach(s, n) && StatusesRight(s, n) && s.taken < |s.sent|
    ensures s.c.statuses[s.sent[s.taken].i] == Missed
  {
    assert !Has(s.sent, s.taken, s.sent[s.taken].i);
  }

  lemma HasGrows(ms: seq<Message>, k: nat)
    requires k < |ms|
    ensures forall i :: Has(ms, k + 1, i) <==> Has(ms, k, i) || i == ms[k].i
  {
    var last := ms[k].i;
    assert Has(ms, k + 1, last);
  }

  lemma TakingKeepsStatuses(s: System, n: nat)
    requires OneEach(s, n) && StatusesRight(s, n) && Enabled(s, n, SelectsMessage)
    ensures var t := Next(s, n, SelectsMessage);
            OneEach(t, n) && StatusesRight(t, n)
  {
    HasGrows(s.sent, s.taken);
    var t, m := Next(s, n, SelectsMessage), s.sent[s.taken];
    assert t.sent == s.sent && t.c.statuses == s.c.statuses[m.i := StatusOf(m.reply)];
  }

  lemma TakeCounts(c: Collector, m: Message)
    requires !c.returned && m.i < |c.statuses| && c.statuses[m.i] == Missed && c.remaining == CountMissed(c.statuses)
    ensures Take(c, Got(m)).remaining == CountMissed(Take(c, Got(m)).statuses) == c.remaining - 1
  {
    MissedDrops(c.statuses, m.i, StatusOf(m.reply));
  }

  lemma BooksGrow(ms: seq<Message>, k: nat)
    requires k < |ms|
    ensures Books(ms[..k + 1]) == Books(ms[..k]) + BookOf(ms[k].reply)
  {
    assert ms[..k + 1][..k] == ms[..k];
  }

  lemma TakingKeepsCount(s: System, n: nat)
    requires Enabled(s, n, SelectsMessage) && s.c.statuses[s.sent[s.taken].i] == Missed
    requires s.c.remaining == CountMissed(s.c.statuses) == n - s.taken && s.c.out == Books(s.sent[..s.taken])
    ensures var t := Next(s, n, SelectsMessage);
            && t.c.remaining == CountMissed(t.c.statuses) == n - t.taken
            && t.c.out == Books(t.sent[..t.taken])
  {
    TakeCounts(s.c, s.sent[s.taken]);
    BooksGrow(s.sent, s.taken);
  }

  lemma TakingKeepsInv(s: System, n: nat)
    requires Inv(s, n) && Enabled(s, n, SelectsMessage)
    ensures Inv(Next(s, n, SelectsMessage), n)
  {
    TakesMissed(s, n);
    TakingKeepsStatuses(s, n);
    TakingKeepsCount(s, n);
  }

  lemma SendingKeepsInv(s: System, n: nat, i: nat, r: Reply)
    requires Inv(s, n) && i < n && Enabled(s, n, Replies(i, r))
    ensures Inv(Next(s, n, Replies(i, r)), n)
  {
    var t := Next(s, n, Replies(i, r));
    SendingKeepsStatuses(s, n, i, r);
    assert t.sent[..t.taken] == s.sent[..s.taken];
  }

  lemma SendingKeepsStatuses(s: System, n: nat, i: nat, r: Reply)
    requires OneEach(s, n) && StatusesRight(s, n) && i < n && Enabled(s, n, Replies(i, r))
    ensures var t := Next(s, n, Replies(i, r));
            OneEach(t, n) && StatusesRight(t, n)
  {
    var t := Next(s, n, Replies(i, r));
    assert forall k :: 0 <= k < |s.sent| ==> t.sent[k] == s.sent[k];
    forall j | 0 <= j < n && t.c.statuses[j] != Missed ensures Has(t.sent, t.taken, j) {
      var k :| 0 <= k < s.taken && s.sent[k].i == j;
      assert t.sent[k].i == j;
    }
  }

  /** Timers, the caller giving up, and a select on one of those. */
  lemma OthersKeepInv(s: System, n: nat, e: Event)
    requires Inv(s, n) && Enabled(s, n, e) && !e.Replies? && !e.SelectsMessage?
    ensures Inv(Next(s, n, e), n)
  {
    var t := Next(s, n, e);
    assert t.sent == s.sent && t.taken == s.taken && t.c.statuses == s.c.statuses;
    assert OneEach(t, n) && StatusesRight(t, n);
  }

  lemma StepKeepsInv(s: System, n: nat, e: Event)
    requires Inv(s, n)
    ensures Inv(Next(s, n, e), n)
  {
    if Enabled(s, n, e) {
      if e.Replies? {
        SendingKeepsInv(s, n, e.i, e.reply);
      } else if e.SelectsMessage? {
        TakingKeepsInv(s, n);
      } else {
        OthersKeepInv(s, n, e);
      }
    }
  }

  /** Over every interleaving of replies, timers, cancellation and selects. */
  lemma EveryRunKeepsInv(n: nat, es: seq<Event>)
    ensures Inv(Run(Init(n), n, es), n)
  {
    InitHolds(n);
    RunKeepsInv(Init(n), n, es);
  }

  lemma {:induction false} RunKeepsInv(start: System, n: nat, es: seq<Event>)
    requires Inv(start, n)
    ensures Inv(Run(start, n, es), n)
  {
    if es != [] {
      RunKeepsInv(start, n, es[..|es| - 1]);
      StepKeepsInv(Run(start, n, es[..|es| - 1]), n, es[|es| - 1]);
    }
  }

  /** At any point of any run, also after lookupBarcode has returned, a provider that
      has not sent yet can send at once: the channel has room. */
  lemma NoSenderBlocks(n: nat, es: seq<Event>, i: nat, r: Reply)
    requires i in Run(Init(n), n, es).out
    ensures Enabled(Run(Init(n), n, es), n, Replies(i, r))
  {
    EveryRunKeepsInv(n, es);
    var s := Run(Init(n), n, es);
    assert s.out == {i} + (s.out - {i});
  }

  lemma MissedIffUntaken(s: System, n: nat)
    requires OneEach(s, n) && StatusesRight(s, n)
    ensures forall i :: 0 <= i < n ==> (s.c.statuses[i] == Missed <==> !Has(s.sent, s.taken, i))
  {
  }

  /** What the caller gets at any point: a status per provider, as many "missed" as
      are remaining, each other one that of the message its provider sent; the books
      of the messages taken in arrival order; and no return before everybody answered
      unless a deadline passed or the caller gave up. */
  lemma ReportIsRight(n: nat, es: seq<Event>)
    ensures var s := Run(Init(n), n, es);
            && s.taken <= |s.sent| && |s.c.statuses| == n
            && s.c.remaining == CountMissed(s.c.statuses)
            && s.c.out == Books(s.sent[..s.taken])
            && (forall i :: 0 <= i < n ==> (s.c.statuses[i] == Missed <==> !Has(s.sent, s.taken, i)))
            && (forall k :: 0 <= k < s.taken ==>
                  s.sent[k].i < n && s.c.statuses[s.sent[k].i] == StatusOf(s.sent[k].reply))
            && (forall k, l :: 0 <= k < l < |s.sent| ==> s.sent[k].i != s.sent[l].i)
            && (s.c.returned && !s.deadline && !s.overall && !s.cancelled ==> Missed !in s.c.statuses)
  {
    EveryRunKeepsInv(n, es);
    var s := Run(Init(n), n, es);
    MissedIffUntaken(s, n);
    if s.c.remaining == 0 {
      NoneMissed(s.c.statuses);
    }
  }

  lemma {:induction false} NoneMissed(ss: seq<Status>)
    requires CountMissed(ss) == 0
    ensures Missed !in ss
  {
    if ss != [] {
      NoneMissed(ss[..|ss| - 1]);
      assert ss == ss[..|ss| - 1] + [ss[|ss| - 1]];
    }
  }

  // ---- what the report says of the replies -------------------------------------

  /** For everybody whose message was taken the status is what he replied, and for
      everybody else it is "missed". */
  lemma StatusesSay(n: nat, es: seq<Event>)
    ensures var s := Run(Init(n), n, es);
            && s.taken <= |s.sent| && |s.c.statuses| == n
            && (forall k :: 0 <= k < s.taken ==>
                  && s.sent[k].i < n
                  && (s.c.statuses[s.sent[k].i] == Answered <==> exists b :: s.sent[k].reply == Found(b))
                  && (s.c.statuses[s.sent[k].i] == NoRecord <==> s.sent[k].reply == Nothing)
                  && (s.c.statuses[s.sent[k].i] == Errored <==> s.sent[k].reply == Failure))
            && (forall i :: 0 <= i < n ==>
                  (s.c.statuses[i] == Missed <==> forall k :: 0 <= k < s.taken ==> s.sent[k].i != i))
  {
    ReportIsRight(n, es);
    var s := Run(Init(n), n, es);
    forall k | 0 <= k < s.taken && s.sent[k].reply.Found?
      ensures exists b :: s.sent[k].reply == Found(b)
    {
      assert s.sent[k].reply == Found(s.sent[k].reply.book);
    }
  }

  /** The messages `at` points to, in order, are those that found a book, and these are
      the books. */
  ghost predicate AreTheFinds(ms: seq<Message>, books: seq<Book>, at: seq<nat>) {
    && |at| == |books|
    && (forall j :: 0 <= j < |at| ==> at[j] < |ms| && ms[at[j]].reply == Found(books[j]))
    && (forall i, j :: 0 <= i < j < |at| ==> at[i] < at[j])
    && (forall k :: 0 <= k < |ms| && ms[k].reply.Found? ==> k in at)
  }

  lemma FindsGrow(ms: seq<Message>, books: seq<Book>, at: seq<nat>, m: Message)
    requires AreTheFinds(ms, books, at)
    ensures AreTheFinds(ms + [m], books + BookOf(m.reply), at + if m.reply.Found? then [|ms|] else [])
  {
    var all, more := ms + [m], at + if m.reply.Found? then [|ms|] else [];
    forall k | 0 <= k < |all| && all[k].reply.Found? ensures k in more {
      if k < |ms| {
        assert ms[k] == all[k] && k in at;
      } else {
        assert more[|at|] == k;
      }
    }
  }

  lemma {:induction false} BooksAreFinds(ms: seq<Message>) returns (at: seq<nat>)
    ensures AreTheFinds(ms, Books(ms), at)
  {
    if ms == [] {
      return [];
    }
    var n := |ms| - 1;
    at := BooksAreFinds(ms[..n]);
    FindsGrow(ms[..n], Books(ms[..n]), at, ms[n]);
    assert ms == ms[..n] + [ms[n]];
    at := at + if ms[n].reply.Found? then [n] else [];
  }

  /** The books reported are the finds among the messages taken, one for one and in the
      order they arrived, and there is one for every status that says "answered". */
  lemma BooksSay(n: nat, es: seq<Event>) returns (at: seq<nat>)
    ensures var s := Run(Init(n), n, es);
            && s.taken <= |s.sent| && |s.c.statuses| == n
            && AreTheFinds(s.sent[..s.taken], s.c.out, at)
            && |s.c.out| == |set i | 0 <= i < n && s.c.statuses[i] == Answered|
  {
    var s := Run(Init(n), n, es);
    EveryRunKeepsInv(n, es);
    StatusesSay(n, es);
    at := BooksAreFinds(s.sent[..s.taken]);
    AnsweredAreFinds(s, n, at);
  }

  lemma AnsweredAreFinds(s: System, n: nat, at: seq<nat>)
    requires s.taken <= |s.sent| && |s.c.statuses| == n && AreTheFinds(s.sent[..s.taken], s.c.out, at)
    requires forall k :: 0 <= k < s.taken ==>
               s.sent[k].i < n && (s.c.statuses[s.sent[k].i] == Answered <==> s.sent[k].reply.Found?)
    requires forall i :: 0 <= i < n ==>
               (s.c.statuses[i] == Missed <==> forall k :: 0 <= k < s.taken ==> s.sent[k].i != i)
    requires forall k, l :: 0 <= k < l < |s.sent| ==> s.sent[k].i != s.sent[l].i
    ensures |s.c.out| == |set i | 0 <= i < n && s.c.statuses[i] == Answered|
  {
    var senders: seq<nat> := seq(|at|, j requires 0 <= j < |at| => s.sent[at[j]].i);
    DistinctSize(senders);
    forall i: nat ensures i in Elements(senders) <==> i < n && s.c.statuses[i] == Answered {
      AnsweredIsAFind(s, n, at, senders, i);
    }
    assert Elements(senders) == set i | 0 <= i < n && s.c.statuses[i] == Answered;
  }

  lemma AnsweredIsAFind(s: System, n: nat, at: seq<nat>, senders: seq<nat>, i: nat)
    requires s.taken <= |s.sent| && |s.c.statuses| == n && AreTheFinds(s.sent[..s.taken], s.c.out, at)
    requires forall k :: 0 <= k < s.taken ==>
               s.sent[k].i < n && (s.c.statuses[s.sent[k].i] == Answered <==> s.sent[k].reply.Found?)
    requires forall i :: 0 <= i < n ==>
               (s.c.statuses[i] == Missed <==> forall k :: 0 <= k < s.taken ==> s.sent[k].i != i)
    requires |senders| == |at| && forall j :: 0 <= j < |at| ==> senders[j] == s.sent[at[j]].i
    ensures i in senders <==> 0 <= i < n && s.c.statuses[i] == Answered
  {
    var ms := s.sent[..s.taken];
    if i in senders {
      var j :| 0 <= j < |at| && senders[j] == i;
      assert ms[at[j]] == s.sent[at[j]];
    }
    if i < n && s.c.statuses[i] == Answered {
      var k :| 0 <= k < s.taken && s.sent[k].i == i;
      assert ms[k] == s.sent[k] && k in at;
      var j :| 0 <= j < |at| && at[j] == k;
      assert senders[j] == i;
    }
  }

  function Elements(xs: seq<nat>): set<nat> { set x | x in xs }

  lemma OneMoreElement(xs: seq<nat>, x: nat)
    requires x !in xs
    ensures |Elements(xs + [x])| == |Elements(xs)| + 1
  {
    assert Elements(xs + [x]) == Elements(xs) + {x};
  }

  lemma {:induction false} DistinctSize(xs: seq<nat>)
    requires forall i, j :: 0 <= i < j < |xs| ==> xs[i] != xs[j]
    ensures |Elements(xs)| == |xs|
  {
    if xs != [] {
      var n := |xs| - 1;
      assert xs == xs[..n] + [xs[n]];
      DistinctSize(xs[..n]);
      OneMoreElement(xs[..n], xs[n]);
    }
  }

  /** Provider i has sent a message. */
  ghost predicate Sent(s: System, i: nat) { Has(s.sent, |s.sent|, i) }

  /** Every message is a reply the run has, and every provider that replied in it has
      sent one. */
  lemma {:induction false} MessagesAreReplies(n: nat, es: seq<Event>)
    ensures forall k :: 0 <= k < |Run(Init(n), n, es).sent| ==>
              Replies(Run(Init(n), n, es).sent[k].i, Run(Init(n), n, es).sent[k].reply) in es
    ensures forall i: nat, r :: i < n && Replies(i, r) in es ==> Sent(Run(Init(n), n, es), i)
  {
    if es != [] {
      var m := |es| - 1;
      var before, e := es[..m], es[m];
      MessagesAreReplies(n, before);
      assert es == before + [e];
      var was, is_ := Run(Init(n), n, before), Run(Init(n), n, es);
      forall k | 0 <= k < |is_.sent| ensures Replies(is_.sent[k].i, is_.sent[k].reply) in es {
        if k < |was.sent| {
          assert is_.sent[k] == was.sent[k];
        } else {
          assert e == Replies(is_.sent[k].i, is_.sent[k].reply);
        }
      }
      forall i: nat, r | i < n && Replies(i, r) in es ensures Sent(Run(Init(n), n, es), i) {
        if Replies(i, r) in before {
          SentStays(Run(Init(n), n, before), n, e, i);
        } else {
          RepliesSends(n, before, i, r);
        }
      }
    }
  }

  lemma SentStays(s: System, n: nat, e: Event, i: nat)
    requires Sent(s, i)
    ensures Sent(Next(s, n, e), i)
  {
    var k :| 0 <= k < |s.sent| && s.sent[k].i == i;
    assert Next(s, n, e).sent[k] == s.sent[k];
  }

  lemma RepliesSends(n: nat, es: seq<Event>, i: nat, r: Reply)
    requires i < n
    ensures Sent(Next(Run(Init(n), n, es), n, Replies(i, r)), i)
  {
    var s := Run(Init(n), n, es);
    OutOrSent(n, es, i);
    if i in s.out {
      NoSenderBlocks(n, es, i, r);
      assert Next(s, n, Replies(i, r)).sent[|s.sent|].i == i;
    } else {
      SentStays(s, n, Replies(i, r), i);
    }
  }

  lemma {:induction false} OutOrSent(n: nat, es: seq<Event>, i: nat)
    requires i < n
    ensures i in Run(Init(n), n, es).out || Sent(Run(Init(n), n, es), i)
  {
    if es != [] {
      var m := |es| - 1;
      var s := Run(Init(n), n, es[..m]);
      OutOrSent(n, es[..m], i);
      if Sent(s, i) {
        SentStays(s, n, es[m], i);
      } else if es[m].Replies? && es[m].i == i {
        RepliesItself(s, n, es[m]);
      }
    }
  }

  lemma RepliesItself(s: System, n: nat, e: Event)
    requires e.Replies? && e.i in s.out
    ensures e.i in Next(s, n, e).out || Sent(Next(s, n, e), e.i)
  {
    if Enabled(s, n, e) {
      assert Next(s, n, e).sent[|s.sent|].i == e.i;
    }
  }

  /** The short deadline can cut off late results only: it never passes before somebody
      has answered, so it never ends a lookup with everything missed. */
  lemma {:induction false} DeadlineNeedsAResult(n: nat, es: seq<Event>)
    ensures var s := Run(Init(n), n, es);
            && (s.deadline ==> s.taken > 0)
            && (s.c.returned && s.taken == 0 && n > 0 ==> s.overall || s.cancelled)
  {
    EveryRunKeepsInv(n, es);
    if es != [] {
      var m := |es| - 1;
      EveryRunKeepsInv(n, es[..m]);
      DeadlineNeedsAResult(n, es[..m]);
      DeadlineWaits(Run(Init(n), n, es[..m]), n, es[m]);
    }
  }

  lemma DeadlineWaits(s: System, n: nat, e: Event)
    requires s.c.armed <==> s.taken > 0
    requires s.deadline ==> s.taken > 0
    ensures Next(s, n, e).deadline ==> Next(s, n, e).taken > 0
  {
  }

  /** c may become d: written statuses stay, results are only added, and a collector
      that has returned stays as it is. */
  ghost predicate Refines(c: Collector, d: Collector) {
    && |c.statuses| == |d.statuses|
    && (forall i :: 0 <= i < |c.statuses| && c.statuses[i] != Missed ==> d.statuses[i] == c.statuses[i])
    && c.out <= d.out
    && (c.returned ==> d == c)
  }

  lemma TakeRefines(c: Collector, p: Pick)
    requires p.Got? ==> p.message.i < |c.statuses| && c.statuses[p.message.i] == Missed
    ensures Refines(c, Take(c, p))
  {
  }

  lemma StepRefines(s: System, n: nat, e: Event)
    requires Inv(s, n)
    ensures Refines(s.c, Next(s, n, e).c)
  {
    var ps := StepIsPick(s, n, e);
    if ps != [] {
      if ps[0].Got? {
        TakesMissed(s, n);
      }
      TakeRefines(s.c, ps[0]);
    }
  }

  /** A status once written never changes, and after the return nothing the caller
      holds changes, whoever replies late. */
  lemma {:induction false} WrittenOnce(n: nat, es: seq<Event>, later: seq<Event>)
    ensures Refines(Run(Init(n), n, es).c, Run(Init(n), n, es + later).c)
    decreases |later|
  {
    if later == [] {
      assert es + later == es;
    } else {
      var init := later[..|later| - 1];
      var e := later[|later| - 1];
      WrittenOnce(n, es, init);
      assert es + later == (es + init) + [e];
      assert (es + later)[..|es + later| - 1] == es + init;
      EveryRunKeepsInv(n, es + init);
      StepRefines(Run(Init(n), n, es + init), n, e);
    }
  }

  /** Taking message after message. */
  function Drain(s: System, n: nat, k: nat): System
    decreases k
  {
    if k == 0 then s else Drain(Next(s, n, SelectsMessage), n, k - 1)
  }

  /** While the collector runs there is a message for it. */
  lemma MessageWaits(s: System, n: nat)
    requires Inv(s, n) && s.out == {} && !s.c.returned
    ensures Enabled(s, n, SelectsMessage)
  {
    assert |s.sent| == n && s.c.remaining == n - s.taken;
    assert s.sent[s.taken].i < n;
  }

  lemma TakesTheNext(s: System, n: nat)
    requires Enabled(s, n, SelectsMessage)
    ensures var t := Next(s, n, SelectsMessage);
            && t.out == s.out && t.sent == s.sent && t.taken == s.taken + 1
            && (t.c.returned ==> t.c.remaining == 0)
  {
  }

  lemma DrainOne(s: System, n: nat, k: nat)
    requires k > 0
    ensures Drain(s, n, k) == Drain(Next(s, n, SelectsMessage), n, k - 1)
  {
  }

  lemma DrainUnfolds(s: System, n: nat)
    requires Enabled(s, n, SelectsMessage)
    ensures var t := Next(s, n, SelectsMessage);
            && Queued(t) == Queued(s) - 1 >= 0
            && Drain(s, n, Queued(s)) == Drain(t, n, Queued(t))
  {
    TakesTheNext(s, n);
    DrainOne(s, n, Queued(s));
  }

  lemma LastMessage(s: System, n: nat)
    requires Inv(s, n) && s.out == {} && s.c.returned && s.c.remaining == 0
    ensures Complete(s)
  {
    assert s.taken == |s.sent|;
    NoneMissed(s.c.statuses);
    assert s.sent[..s.taken] == s.sent;
  }

  /** When every provider has replied, taking what is on the channel ends the lookup
      with everybody's own status. */
  lemma {:induction false} DrainingFinishes(s: System, n: nat)
    requires Inv(s, n) && s.out == {} && !s.c.returned
    ensures Complete(Drain(s, n, Queued(s)))
    decreases Queued(s)
  {
    MessageWaits(s, n);
    DrainUnfolds(s, n);
    TakesTheNext(s, n);
    TakingKeepsInv(s, n);
    if Next(s, n, SelectsMessage).c.returned {
      LastMessage(Next(s, n, SelectsMessage), n);
    } else {
      DrainingFinishes(Next(s, n, SelectsMessage), n);
    }
  }

  /** Everybody has answered, and the lookup has returned all of it. */
  ghost predicate Complete(s: System) {
    s.c.returned && s.taken == |s.sent| && Missed !in s.c.statuses && s.c.out == Books(s.sent)
  }

  /** What the collector does in one step, as picks: nothing or one. */
  lemma StepIsPick(s: System, n: nat, e: Event) returns (ps: seq<Pick>)
    requires Inv(s, n)
    ensures ps == [] ==> Next(s, n, e).c == s.c
    ensures ps != [] ==> (ps[0].Got? ==> ps[0].message.i < n)
    ensures ps != [] ==> Next(s, n, e).c == Take(s.c, ps[0])
    ensures ps != [] && ps[0].Got? ==> s.taken < |s.sent| && ps[0].message == s.sent[s.taken]
  {
    if !Enabled(s, n, e) {
      return [];
    }
    match e
    case SelectsMessage => ps := [Got(s.sent[s.taken])];
    case SelectsDeadline => ps := [Deadline];
    case SelectsOverall => ps := [Overall];
    case SelectsCancel => ps := [Cancelled];
    case _ => ps := [];
  }

  lemma AppendPick(c: Collector, ps: seq<Pick>, p: Pick)
    requires InRange(ps, |c.statuses|) && (p.Got? ==> p.message.i < |c.statuses|)
    ensures InRange(ps + [p], |c.statuses|)
    ensures TakeAll(c, ps + [p]) == Take(TakeAll(c, ps), p)
  {
    assert (ps + [p])[..|ps|] == ps;
  }

  /** The collector in any run is lookupBarcode's loop on some sequence of picks. */
  lemma {:induction false} RunsAreCollections(start: System, n: nat, es: seq<Event>) returns (picks: seq<Pick>)
    requires Inv(start, n)
    ensures InRange(picks, n) && Run(start, n, es).c == TakeAll(start.c, picks)
  {
    if es == [] {
      return [];
    }
    var init := es[..|es| - 1];
    picks := RunsAreCollections(start, n, init);
    RunKeepsInv(start, n, init);
    var ps := StepIsPick(Run(start, n, init), n, es[|es| - 1]);
    if ps != [] {
      AppendPick(start.c, picks, ps[0]);
      picks := picks + [ps[0]];
    }
  }
}
