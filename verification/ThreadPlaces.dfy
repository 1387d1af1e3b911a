/** Every thread is in exactly one place: what each queue operation keeps. */
module ThreadPlaces {
  import opened Threads

  ghost predicate Unique(queue: seq<nat>) {
    forall i, j :: 0 <= i < j < |queue| ==> queue[i] != queue[j]
  }

  ghost predicate Lists(s: Sys, q: Queue) {
    Unique(Q(s, q)) && forall t: nat :: t in Q(s, q) <==> t < |s.at| && s.at[t] == In(q)
  }

  /** A thread is on a queue, once, exactly if that is its place. */
  ghost predicate QueuesOk(s: Sys) {
    forall q :: Lists(s, q)
  }

  /** The running thread is on no queue, unless it is about to switch to another. */
  ghost predicate CurrentOk(s: Sys)
    requires Sized(s)
  {
    forall t :: 0 <= t < |s.at| ==> (s.at[t] == Current <==> t == s.cur && !s.pc[t].Sched?)
  }

  ghost predicate Places(s: Sys) {
    Sized(s) && QueuesOk(s) && CurrentOk(s)
  }

  lemma PlacesRange(s: Sys)
    requires Sized(s) && QueuesOk(s)
    ensures QueuesListThreads(s)
  {
    forall q ensures InRange(Q(s, q), |s.pc|) {
      assert Lists(s, q);
      forall j | 0 <= j < |Q(s, q)| ensures Q(s, q)[j] < |s.pc| { assert Q(s, q)[j] in Q(s, q); }
    }
  }

  lemma DropSpec(queue: seq<nat>, i: nat, t: nat)
    requires i < |queue| && Unique(queue)
    ensures Unique(Drop(queue, i)) && (t in Drop(queue, i) <==> t in queue && t != queue[i])
  {
    var r := Drop(queue, i);
    if t in queue && t != queue[i] {
      var k :| 0 <= k < |queue| && queue[k] == t;
      assert r[if k < i then k else k - 1] == t;
    }
  }

  lemma UniqueAppend(a: seq<nat>, b: seq<nat>)
    requires Unique(a) && Unique(b) && forall t :: t in a ==> t !in b
    ensures Unique(a + b)
  {
    var c := a + b;
    forall i, j | 0 <= i < j < |c| ensures c[i] != c[j] {
      if i < |a| <= j { assert c[i] in a && c[j] in b; }
    }
  }

  lemma PutQueues(s: Sys, q: Queue, t: nat)
    requires Sized(s) && QueuesOk(s) && t < |s.at| && !s.at[t].In?
    ensures QueuesOk(Put(s, q, t))
  {
    var r := Put(s, q, t);
    forall p ensures Lists(r, p) { assert Lists(s, p); }
  }

  lemma WakeOneQueues(s: Sys, q: Queue)
    requires Sized(s) && QueuesOk(s) && InRange(Q(s, q), |s.pc|) && q != RunQ
    ensures QueuesOk(WakeOne(s, q))
  {
    if Q(s, q) != [] {
      var i := Best(Q(s, q), s.prio);
      var t := Q(s, q)[i];
      var r := WakeOne(s, q);
      forall p ensures Lists(r, p) {
        assert Lists(s, p) && Lists(s, q) && t in Q(s, q);
        if p == q {
          forall u: nat ensures u in Q(r, p) <==> u < |r.at| && r.at[u] == In(p) { DropSpec(Q(s, q), i, u); }
          DropSpec(Q(s, q), i, 0);
        }
      }
    }
  }

  lemma WakeAllQueues(s: Sys, q: Queue)
    requires Sized(s) && QueuesOk(s) && q != RunQ
    ensures QueuesOk(WakeAll(s, q))
  {
    var r := WakeAll(s, q);
    assert Lists(s, q) && Lists(s, RunQ);
    UniqueAppend(Q(s, RunQ), Q(s, q));
    forall p ensures Lists(r, p) { assert Lists(s, p); }
  }

  lemma SwitchQueues(s: Sys)
    requires Sized(s) && QueuesOk(s) && Q(s, RunQ) != [] && InRange(Q(s, RunQ), |s.pc|)
    ensures QueuesOk(Switch(s))
  {
    var run := Q(s, RunQ);
    var i := Best(run, s.prio);
    var r := Switch(s);
    forall p ensures Lists(r, p) {
      assert Lists(s, p) && Lists(s, RunQ) && run[i] in run;
      if p == RunQ {
        forall u: nat ensures u in Q(r, p) <==> u < |r.at| && r.at[u] == In(p) { DropSpec(run, i, u); }
        DropSpec(run, i, 0);
      }
    }
  }

  lemma TakeGraveQueues(s: Sys)
    requires Sized(s) && QueuesOk(s) && Q(s, ChainQ) == []
    ensures QueuesOk(TakeGrave(s))
  {
    var r := TakeGrave(s);
    forall p ensures Lists(r, p) { assert Lists(s, p) && Lists(s, GraveQ) && Lists(s, ChainQ); }
  }

  lemma DestroyQueues(s: Sys)
    requires Sized(s) && QueuesOk(s) && Q(s, ChainQ) != []
    ensures QueuesOk(Destroy(s)) && Q(s, ChainQ)[0] < |s.at| && s.at[Q(s, ChainQ)[0]] == In(ChainQ)
  {
    var r, chain := Destroy(s), Q(s, ChainQ);
    assert Lists(s, ChainQ) && chain[0] in chain;
    forall p ensures Lists(r, p) {
      assert Lists(s, p);
      if p == ChainQ {
        assert Drop(chain, 0) == chain[1..];
        forall u: nat ensures u in Q(r, p) <==> u < |r.at| && r.at[u] == In(p) { DropSpec(chain, 0, u); }
        DropSpec(chain, 0, 0);
      }
    }
  }

  lemma StartQueues(s: Sys, prio: int, detached: bool)
    requires Sized(s) && QueuesOk(s)
    ensures QueuesOk(Start(s, prio, detached))
  {
    var r := Start(s, prio, detached);
    assert Lists(s, RunQ);
    UniqueAppend(Q(s, RunQ), [|s.pc|]);
    forall p ensures Lists(r, p) { assert Lists(s, p); }
  }

  lemma DetachQueues(s: Sys, t: nat)
    requires Sized(s) && QueuesOk(s) && t < |s.pc| && (s.refs[t] == 1 ==> !s.at[t].In?)
    ensures QueuesOk(Detach(s, t))
  {
    var s1 := s.(refs := s.refs[t := s.refs[t] - 1]);
    assert QueuesOk(s1) by { forall q ensures Lists(s1, q) { assert Lists(s, q); } }
    if s1.refs[t] == 0 {
      PutQueues(s1, GraveQ, t);
      WakeAllQueues(Put(s1, GraveQ, t), ReaperQ);
    }
  }
}
