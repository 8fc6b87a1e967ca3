/** The two ready-queue backends as they work in place. */
module Schedulers {
  import opened Lists
  import opened ReadyQueue
  import opened SortedReadyList
  import opened BitWords

  const WORDS: nat := 4

  lemma HighestIs(q: Queues, p: nat, n: nat)
    requires p < n <= MAX_PRIORITY && q[p] != []
    requires forall h :: p < h < n ==> q[h] == []
    ensures HighestBelow(q, n) == Some(q[p][0])
  {
    if n - 1 > p {
      HighestIs(q, p, n - 1);
    }
  }

  /** A bit is set iff its queue has a task. */
  ghost predicate Marked(words: seq<bv64>, q: seq<seq<TaskId>>) {
    && |words| == WORDS && |q| == MAX_PRIORITY
    && forall p :: 0 <= p < MAX_PRIORITY ==> (Bit(words[p / 64], p % 64) <==> q[p] != [])
  }

  lemma MarkSet(words: seq<bv64>, q: seq<seq<TaskId>>, p: nat, s: seq<TaskId>)
    requires Marked(words, q) && p < MAX_PRIORITY && s != []
    ensures Marked(words[p / 64 := SetIn(words[p / 64], p % 64)], q[p := s])
  {
    hide Bit, SetIn, ClearIn;
    forall i | 0 <= i < 64 ensures Bit(SetIn(words[p / 64], p % 64), i) <==> i == p % 64 || Bit(words[p / 64], i) {
      SetBit(words[p / 64], p % 64, i);
    }
  }

  lemma MarkClear(words: seq<bv64>, q: seq<seq<TaskId>>, p: nat)
    requires Marked(words, q) && p < MAX_PRIORITY
    ensures Marked(words[p / 64 := ClearIn(words[p / 64], p % 64)], q[p := []])
  {
    hide Bit, SetIn, ClearIn;
    forall i | 0 <= i < 64 ensures Bit(ClearIn(words[p / 64], p % 64), i) <==> i != p % 64 && Bit(words[p / 64], i) {
      ClearBit(words[p / 64], p % 64, i);
    }
  }

  lemma MarkKept(words: seq<bv64>, q: seq<seq<TaskId>>, p: nat, s: seq<TaskId>)
    requires Marked(words, q) && p < MAX_PRIORITY && (s == [] <==> q[p] == [])
    ensures Marked(words, q[p := s])
  {}

  /** The word scanned first that is not zero names the highest queue that is not empty. */
  lemma TopOfWord(words: seq<bv64>, q: seq<seq<TaskId>>, word: nat)
    requires Marked(words, q) && word < WORDS
    ensures words[word] == 0 ==> forall p :: word * 64 <= p < word * 64 + 64 ==> q[p] == []
    ensures words[word] != 0 ==>
              var highest := word * 64 + (63 - LeadingZeros(words[word]));
              && word * 64 <= highest < word * 64 + 64 && q[highest] != []
              && forall p :: highest < p < word * 64 + 64 ==> q[p] == []
  {
    NonZeroHasBit(words[word]);
    hide Bit;
    forall p | word * 64 <= p < word * 64 + 64 ensures Bit(words[word], p - word * 64) <==> q[p] != [] {
      assert p / 64 == word && p % 64 == p - word * 64;
    }
  }

  class BitmapScheduler {
    const queues: array<seq<TaskId>>
    const bitmap: array<bv64>

    ghost predicate Valid()
      reads this, queues, bitmap
    {
      Marked(bitmap[..], queues[..])
    }

    constructor ()
      ensures Valid() && queues[..] == EMPTY && fresh(queues) && fresh(bitmap)
    {
      queues := new seq<TaskId>[MAX_PRIORITY](_ => []);
      bitmap := new bv64[WORDS](_ => 0);
      new;
      forall i | 0 <= i < 64 ensures !Bit(0, i) {
        ZeroWord(i);
      }
    }

    method Enqueue(t: TaskId, p: int)
      requires Valid()
      modifies queues, bitmap
      ensures Valid() && queues[..] == Add(old(queues[..]), p, t)
    {
      if !InRange(p) {
        return;
      }
      hide Marked;
      MarkSet(bitmap[..], queues[..], p, queues[p] + [t]);
      queues[p] := queues[p] + [t];
      bitmap[p / 64] := SetIn(bitmap[p / 64], p % 64);
    }

    /** Unlinks a task that is queued under `p`, and clears the bit of an emptied queue. */
    method Dequeue(t: TaskId, p: int)
      requires Valid()
      modifies queues, bitmap
      ensures Valid() && queues[..] == Remove(old(queues[..]), p, t)
    {
      if !InRange(p) || t !in queues[p] {
        return;
      }
      hide Marked;
      queues[p] := Without(queues[p], t);
      if queues[p] == [] {
        MarkClear(bitmap[..], old(queues[..]), p);
        bitmap[p / 64] := ClearIn(bitmap[p / 64], p % 64);
      } else {
        MarkKept(bitmap[..], old(queues[..]), p, queues[p]);
      }
    }

    method Reenqueue(t: TaskId, was: int, p: int)
      requires Valid()
      modifies queues, bitmap
      ensures Valid() && queues[..] == Requeue(old(queues[..]), was, p, t)
    {
      if InRange(was) && t in queues[was] {
        Dequeue(t, was);
        Enqueue(t, p);
      }
    }

    method RotateQueue(t: TaskId, p: int)
      requires Valid()
      modifies queues
      ensures Valid() && queues[..] == Rotate(old(queues[..]), p, t)
    {
      if InRange(p) && t in queues[p] && |queues[p]| > 1 {
        hide Marked;
        MarkKept(bitmap[..], queues[..], p, Without(queues[p], t) + [t]);
        queues[p] := Without(queues[p], t) + [t];
      }
    }

    /** Scans the words from the top; the highest set bit names the queue to serve. */
    method FindHighest() returns (task: Option<TaskId>)
      requires Valid()
      ensures task == Highest(queues[..])
      ensures Valid()
    {
      var word := WORDS;
      while word > 0
        invariant 0 <= word <= WORDS
        invariant forall p :: word * 64 <= p < MAX_PRIORITY ==> queues[p] == []
      {
        word := word - 1;
        TopOfWord(bitmap[..], queues[..], word);
        if bitmap[word] != 0 {
          var highest := word * 64 + (63 - LeadingZeros(bitmap[word]));
          HighestIs(queues[..], highest, MAX_PRIORITY);
          return Some(queues[highest][0]);
        }
      }
      HighestBelowIsFirst(queues[..], MAX_PRIORITY);
      return None;
    }
  }

  class SimpleScheduler {
    var list: seq<TaskId>

    constructor ()
      ensures list == []
    {
      list := [];
    }

    /** `sched_simple_insert`. */
    method Insert(prio: map<TaskId, int>, t: TaskId)
      modifies this
      ensures list == InsertAt(old(list), LowerPosition(prio, old(list), t), t)
    {
      var i := 0;
      while i < |list| && PriorityOf(prio, t) <= PriorityOf(prio, list[i])
        invariant i <= |list| && list == old(list)
        invariant LowerPosition(prio, list, t) == i + LowerPosition(prio, list[i..], t)
      {
        i := i + 1;
      }
      list := InsertAt(list, i, t);
    }

    /** `sched_simple_insert_after_same_priority`: behind the last equal, if there is one. */
    method InsertAfterSame(prio: map<TaskId, int>, t: TaskId)
      requires forall i, j :: 0 <= i < j < |list| ==> PriorityOf(prio, list[i]) >= PriorityOf(prio, list[j])
      modifies this
      ensures list == InsertAt(old(list), LowerPosition(prio, old(list), t), t)
    {
      var i, lastSame := 0, -1;
      while i < |list| && PriorityOf(prio, list[i]) >= PriorityOf(prio, t)
        invariant i <= |list| && list == old(list) && -1 <= lastSame < i
        invariant lastSame >= 0 ==> PriorityOf(prio, list[lastSame]) == PriorityOf(prio, t) && lastSame == i - 1
        invariant LowerPosition(prio, list, t) == i + LowerPosition(prio, list[i..], t)
      {
        if PriorityOf(prio, list[i]) == PriorityOf(prio, t) {
          lastSame := i;
        }
        i := i + 1;
      }
      if lastSame >= 0 {
        list := InsertAt(list, lastSame + 1, t);
      } else {
        Insert(prio, t);
      }
    }

    method Enqueue(prio: map<TaskId, int>, t: TaskId)
      modifies this
      ensures list == AddSorted(prio, old(list), t)
    {
      if InRange(PriorityOf(prio, t)) {
        Insert(prio, t);
      }
    }

    method Dequeue(t: TaskId)
      modifies this
      ensures list == Without(old(list), t)
    {
      list := Without(list, t);
    }

    method Reenqueue(prio: map<TaskId, int>, t: TaskId)
      modifies this
      ensures list == RequeueSorted(prio, old(list), t)
    {
      if t in list {
        list := Without(list, t);
        Enqueue(prio, t);
      }
    }

    method RotateList(prio: map<TaskId, int>, t: TaskId)
      requires NoDup(list)
      requires forall i, j :: 0 <= i < j < |list| ==> PriorityOf(prio, list[i]) >= PriorityOf(prio, list[j])
      modifies this
      ensures list == RotateSorted(prio, old(list), t)
    {
      var i := IndexOf(list, t);
      if i + 1 < |list| {
        if PriorityOf(prio, list[i + 1]) == PriorityOf(prio, t) {
          WithoutAt(list, i);
          list := Without(list, t);
          InsertAfterSame(prio, t);
        }
      }
    }

    method FindHighest() returns (task: Option<TaskId>)
      ensures task == if list == [] then None else Some(list[0])
    {
      if list != [] {
        return Some(list[0]);
      }
      return None;
    }
  }
}
