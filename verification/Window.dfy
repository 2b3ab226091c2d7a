/** The retention policy both conversation stores promise to apply. */
module Window {
  import opened Common

  type History = seq<StoredMessage>

  /** A history the model's API accepts: empty, or opened by the user. */
  predicate UserFirst(h: History) {
    h == [] || h[0].role == User
  }

  /** The first index from `from` on that holds a user message, or the end. */
  function UserFrom(h: History, from: nat): (k: nat)
    requires from <= |h|
    ensures from <= k <= |h| && (k == |h| || h[k].role == User)
    ensures forall i :: from <= i < k ==> h[i].role != User
    decreases |h| - from
  {
    if from == |h| || h[from].role == User then from else UserFrom(h, from + 1)
  }

  /** How many messages the size limit alone takes away. */
  function Excess(max: nat, count: nat): (k: nat)
    ensures k <= count
  {
    if count <= max then 0 else count - max
  }

  /** Where the window of `h` begins: cut to size, then on to the first user message. */
  function Start(max: nat, h: History): (k: nat)
    ensures k <= |h| <= k + max && (k == |h| || h[k].role == User)
  {
    UserFrom(h, Excess(max, |h|))
  }

  /** One pass of the policy. */
  function Prune(max: nat, h: History): History {
    h[Start(max, h)..]
  }

  /** A pass that stopped after this many DELETE statements, or after as many as a whole one makes. */
  function Tear(max: nat, h: History, deletes: nat): History {
    h[Torn(max, h, deletes)..]
  }

  /**
   * What they have taken (core/memory.py:299-322): the first all of the excess, if there is any, and
   * each one after it a leading message that is not the user's.
   */
  function Torn(max: nat, h: History, deletes: nat): (k: nat)
    ensures k <= Start(max, h)
  {
    var k := TakenBy(Excess(max, |h|), deletes);
    if k < Start(max, h) then k else Start(max, h)
  }

  function TakenBy(excess: nat, deletes: nat): nat {
    if deletes > 0 && excess > 0 then excess + deletes - 1 else deletes
  }

  /** What a store may retain of `log`: a suffix, within the size, user first. */
  predicate Admissible(max: nat, log: History, kept: History) {
    && |kept| <= max && |kept| <= |log|
    && kept == log[|log| - |kept|..]
    && UserFirst(kept)
  }

  /** `UserFrom` is determined by what it promises. */
  lemma {:induction false} UserFromUnique(h: History, from: nat, k: nat)
    requires from <= k <= |h| && (k == |h| || h[k].role == User)
    requires forall i :: from <= i < k ==> h[i].role != User
    ensures UserFrom(h, from) == k
    decreases k - from
  {
  }

  /** Pruning keeps the longest suffix the policy admits, and no other history is that. */
  lemma PruneIsLongest(max: nat, log: History, kept: History)
    ensures Admissible(max, log, Prune(max, log))
    ensures Admissible(max, log, kept) ==> |kept| <= |Prune(max, log)|
    ensures Admissible(max, log, kept) && |kept| == |Prune(max, log)| ==> kept == Prune(max, log)
  {
  }

  /** A longer log never begins its window earlier. */
  lemma StartGrows(max: nat, earlier: History, later: History)
    ensures Start(max, earlier) <= Start(max, earlier + later)
  {
  }

  lemma PruneAfterCut(max: nat, h: History, cut: nat)
    requires cut <= Start(max, h)
    ensures Prune(max, h[cut..]) == Prune(max, h)
  {
  }

  /** A whole pass after one that stopped leaves what it would have left at once. */
  lemma TearHeals(max: nat, h: History, deletes: nat)
    ensures Prune(max, Tear(max, h, deletes)) == Prune(max, h)
  {
    PruneAfterCut(max, h, Torn(max, h, deletes));
  }

  /** Nothing exceeds the size, or what does ends where a user message begins. */
  predicate LandsOnUser(max: nat, h: History)
    requires 1 <= max
  {
    |h| <= max || h[|h| - max].role == User
  }

  lemma TearLands(max: nat, h: History, deletes: nat)
    requires 1 <= max && UserFirst(h) && LandsOnUser(max, h)
    ensures UserFirst(Tear(max, h, deletes))
  {
    UserFromUnique(h, Excess(max, |h|), Excess(max, |h|));
    assert Torn(max, h, deletes) == 0 || Torn(max, h, deletes) == Start(max, h);
  }

  /** When a pass can be stopped anywhere without an answer in front: exactly when its size cut lands on a user message. */
  lemma TearSafeIff(max: nat, h: History)
    requires 1 <= max
    ensures (forall deletes :: UserFirst(Tear(max, h, deletes))) <==> UserFirst(h) && LandsOnUser(max, h)
  {
    assert Tear(max, h, 0) == h;
    if |h| > max {
      assert Tear(max, h, 1) == h[|h| - max..];
    }
    if UserFirst(h) && LandsOnUser(max, h) {
      forall deletes: nat ensures UserFirst(Tear(max, h, deletes)) {
        TearLands(max, h, deletes);
      }
    }
  }

  /** Pruning as the messages arrive leaves what pruning the whole log once would leave. */
  lemma PruneComposes(max: nat, earlier: History, later: History)
    ensures Prune(max, Prune(max, earlier) + later) == Prune(max, earlier + later)
  {
    var whole, cut := earlier + later, Start(max, earlier);
    StartGrows(max, earlier, later);
    PruneAfterCut(max, whole, cut);
    assert earlier[cut..] + later == whole[cut..];
  }

  /** A second pass finds nothing left to do (core/memory.py:86). */
  lemma PruneIdempotent(max: nat, h: History)
    ensures Prune(max, Prune(max, h)) == Prune(max, h)
  {
  }

  /** A user's question and the answer it got. */
  datatype Exchange = Exchange(question: string, answer: string)

  function Spoken(exchanges: seq<Exchange>): (h: History)
    ensures |h| == 2 * |exchanges|
  {
    if exchanges == [] then [] else
    var last := exchanges[|exchanges| - 1];
    Spoken(exchanges[..|exchanges| - 1])
    + [StoredMessage(User, last.question), StoredMessage(Assistant, last.answer)]
  }

  lemma SpokenPush(exchanges: seq<Exchange>, e: Exchange)
    ensures Spoken(exchanges + [e])
         == Spoken(exchanges) + [StoredMessage(User, e.question)] + [StoredMessage(Assistant, e.answer)]
  {
  }

  lemma {:induction false} SpokenTail(exchanges: seq<Exchange>, k: nat)
    requires k <= |exchanges|
    ensures Spoken(exchanges)[2 * k..] == Spoken(exchanges[k..])
    decreases |exchanges|
  {
    var n := |exchanges|;
    if k < n {
      var front := exchanges[..n - 1];
      SpokenTail(front, k);
      assert exchanges[k..][..n - 1 - k] == front[k..];
      assert Spoken(exchanges)[2 * k..] == Spoken(front)[2 * k..] + Spoken(exchanges)[2 * (n - 1)..];
    } else {
      assert exchanges[k..] == [];
    }
  }

  lemma {:induction false} SpokenRoles(exchanges: seq<Exchange>, k: nat)
    requires k < |exchanges|
    ensures Spoken(exchanges)[2 * k].role == User
    ensures Spoken(exchanges)[2 * k + 1].role == Assistant
    decreases |exchanges|
  {
    if k < |exchanges| - 1 {
      SpokenRoles(exchanges[..|exchanges| - 1], k);
    }
  }

  lemma SpokenOpensWithUser(exchanges: seq<Exchange>)
    ensures UserFirst(Spoken(exchanges))
  {
  }

  /** The window of a log of whole exchanges begins with a question. */
  lemma StartOfSpoken(max: nat, exchanges: seq<Exchange>)
    ensures var n := |exchanges|;
            Start(max, Spoken(exchanges)) == if n <= max / 2 then 0 else 2 * (n - max / 2)
  {
    var n := |exchanges|;
    if n <= max / 2 {
      SpokenOpensWithUser(exchanges);
    } else {
      StartOfLongSpoken(max, exchanges, n - max / 2);
    }
  }

  lemma StartOfLongSpoken(max: nat, exchanges: seq<Exchange>, k: nat)
    requires 0 < k <= |exchanges| && k + max / 2 == |exchanges|
    ensures Start(max, Spoken(exchanges)) == 2 * k
  {
    var h := Spoken(exchanges);
    var from := |h| - max;
    assert from == 2 * k || from == 2 * (k - 1) + 1;
    if k < |exchanges| { SpokenRoles(exchanges, k); }
    SpokenRoles(exchanges, k - 1);
    assert forall i :: from <= i < 2 * k ==> h[i].role != User;
    UserFromUnique(h, from, 2 * k);
  }

  /** A window full of exchanges is exposed: the next question or its answer exceeds it, and lands on an answer. */
  lemma FullWindowIsExposed(max: nat, exchanges: seq<Exchange>, ask: StoredMessage, reply: StoredMessage)
    requires 2 <= max && |exchanges| == max / 2
    ensures !LandsOnUser(max, Spoken(exchanges) + [ask]) || !LandsOnUser(max, Spoken(exchanges) + [ask] + [reply])
  {
    SpokenRoles(exchanges, 0);
  }

  /** Of a log of whole exchanges, exactly the last `max / 2` are kept, in order. */
  lemma PruneKeepsWholeExchanges(max: nat, exchanges: seq<Exchange>)
    ensures Prune(max, Spoken(exchanges)) == Spoken(LastOf(max / 2, exchanges))
  {
    var n := |exchanges|;
    StartOfSpoken(max, exchanges);
    if n > max / 2 {
      SpokenTail(exchanges, n - max / 2);
    }
  }
}
