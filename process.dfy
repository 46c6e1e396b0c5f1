// The locked output queue of src/process.ts: at most one `stdout.write` is
// in flight, and the next text is taken only from that write's callback.

module Process {
  import opened Output

  /** The texts that reach stdout from a sequence of queued texts: the
      empty ones are dropped. */
  function NonEmpty(texts: seq<Text>): (r: seq<Text>)
    ensures |r| <= |texts|
    decreases |texts|
  {
    if texts == [] then [] else Shown(texts[0]) + NonEmpty(texts[1..])
  }

  lemma {:induction false} NonEmptyAppend(a: seq<Text>, b: seq<Text>)
    ensures NonEmpty(a + b) == NonEmpty(a) + NonEmpty(b)
    decreases |a|
  {
    if a == [] {
      assert a + b == b;
    } else {
      assert (a + b)[0] == a[0] && (a + b)[1..] == a[1..] + b;
      NonEmptyAppend(a[1..], b);
    }
  }

  /** A text is dropped only if it is empty: every non-empty text written
      appears, once and in order. */
  lemma {:induction false} NonEmptyKeeps(texts: seq<Text>, k: nat)
    requires k < |texts| && texts[k] != []
    ensures texts[k] in NonEmpty(texts)
    decreases |texts|
  {
    if k > 0 {
      NonEmptyKeeps(texts[1..], k - 1);
    }
  }

  /** The queue without its leading empty texts: what a drain that skips
      empty texts reaches first. */
  function Skip(q: seq<Text>): (r: seq<Text>)
    ensures r == [] || r[0] != []
    ensures |r| <= |q|
    decreases |q|
  {
    if q == [] || q[0] != [] then q else Skip(q[1..])
  }

  lemma SkipOne(text: Text)
    ensures Skip([text]) == Shown(text)
  {
    assert [text][1..] == [];
  }

  /** The module's `locked` flag, its `outputQueue`, the texts handed to
      `stdout.write` so far, and (for the proofs) every text ever passed to
      `write`. */
  class LockedQueue {
    var locked: bool
    var queue: seq<Text>
    var stdout: seq<Text>
    ghost var written: seq<Text>

    /** First in, first out: the non-empty texts written are those already
        on stdout followed by those still queued. */
    ghost predicate Valid()
      reads this
    {
      NonEmpty(written) == stdout + NonEmpty(queue)
    }

    constructor ()
      ensures Valid() && !locked && queue == [] && stdout == [] && written == []
    {
      locked := false;
      queue := [];
      stdout := [];
      written := [];
    }

    /** `exhaustQueue`: nothing while a write is in flight. Otherwise it
        locks and shifts the front text; a non-empty one goes to stdout and
        stays locked until the write completes, an empty one (or an empty
        queue) unlocks at once and leaves the rest of the queue waiting. */
    method ExhaustQueue()
      requires Valid()
      modifies this
      ensures Valid() && written == old(written)
      ensures old(locked) || old(queue) == [] ==>
        locked == old(locked) && queue == old(queue) && stdout == old(stdout)
      ensures !old(locked) && old(queue) != [] ==>
        && queue == old(queue)[1..]
        && stdout == old(stdout) + Shown(old(queue)[0])
        && locked == (old(queue)[0] != [])
    {
      if !locked {
        locked := true;
        if queue != [] {
          var text := queue[0];
          queue := queue[1..];
          if text != [] {
            stdout := stdout + [text];
            return;
          }
        }
        locked := false;
      }
    }

    /** `write`: `del` is ignored; the text is queued and a drain is tried. */
    method Write(content: Text, del: bool)
      requires Valid()
      modifies this
      ensures Valid() && written == old(written) + [content]
      ensures old(locked) ==> locked && queue == old(queue) + [content] && stdout == old(stdout)
      ensures !old(locked) ==>
        var q := old(queue) + [content];
        && queue == q[1..]
        && stdout == old(stdout) + Shown(q[0])
        && locked == (q[0] != [])
    {
      Enqueue(content);
      ExhaustQueue();
    }

    /** The push onto `outputQueue` that `write` starts with. */
    method Enqueue(content: Text)
      requires Valid()
      modifies this
      ensures Valid() && written == old(written) + [content] && queue == old(queue) + [content]
      ensures locked == old(locked) && stdout == old(stdout)
    {
      written := written + [content];
      queue := queue + [content];
      NonEmptyAppend(old(written), [content]);
      NonEmptyAppend(old(queue), [content]);
    }

    /** The completion callback of the write in flight: unlock, then drain
        again if texts are waiting. */
    method WriteDone()
      requires Valid() && locked
      modifies this
      ensures Valid() && written == old(written)
      ensures old(queue) == [] ==> !locked && queue == [] && stdout == old(stdout)
      ensures old(queue) != [] ==>
        && queue == old(queue)[1..]
        && stdout == old(stdout) + Shown(old(queue)[0])
        && locked == (old(queue)[0] != [])
    {
      locked := false;
      if |queue| > 0 {
        ExhaustQueue();
      }
    }

    /** `eraseLines`: the erase sequence, written even when it is empty. */
    method EraseLines(count: int)
      requires Valid()
      modifies this
      ensures Valid() && written == old(written) + [EraseCodes(count)]
      ensures old(locked) ==> locked && queue == old(queue) + [EraseCodes(count)] && stdout == old(stdout)
      ensures !old(locked) ==>
        var q := old(queue) + [EraseCodes(count)];
        && queue == q[1..]
        && stdout == old(stdout) + Shown(q[0])
        && locked == (q[0] != [])
    {
      var sequence := EraseSequence(count);
      Write(sequence, true);
    }

    /** Whether nothing is left behind: when no write is in flight, the
        queue is empty, so `shutdown`, which waits for an empty queue,
        can finish. */
    predicate Drained()
      reads this
    {
      !locked ==> queue == []
    }

    /** `exhaustQueue` as evidently intended: empty texts are skipped and
        the drain goes on until a write is in flight or the queue is empty. */
    method ExhaustQueueDraining()
      requires Valid()
      modifies this
      ensures Valid() && written == old(written) && Drained()
      ensures old(locked) ==> locked && queue == old(queue) && stdout == old(stdout)
      ensures !old(locked) ==>
        var s := Skip(old(queue));
        if s == [] then !locked && queue == [] && stdout == old(stdout)
        else locked && queue == s[1..] && stdout == old(stdout) + [s[0]]
    {
      while !locked && queue != []
        invariant Valid() && written == old(written)
        invariant old(locked) ==> locked && queue == old(queue) && stdout == old(stdout)
        invariant !old(locked) && !locked ==> Skip(queue) == Skip(old(queue)) && stdout == old(stdout)
        invariant !old(locked) && locked ==>
          var s := Skip(old(queue));
          s != [] && queue == s[1..] && stdout == old(stdout) + [s[0]]
        decreases |queue|
      {
        var text := queue[0];
        queue := queue[1..];
        if text != [] {
          locked := true;
          stdout := stdout + [text];
        }
      }
    }

    /** `write` with that drain. */
    method WriteDraining(content: Text, del: bool)
      requires Valid() && Drained()
      modifies this
      ensures Valid() && Drained() && written == old(written) + [content]
      ensures old(locked) ==> locked && queue == old(queue) + [content] && stdout == old(stdout)
      ensures !old(locked) ==>
        queue == [] && stdout == old(stdout) + Shown(content) && locked == (content != [])
    {
      Enqueue(content);
      if !locked {
        assert queue == [content];
        SkipOne(content);
      }
      ExhaustQueueDraining();
    }

    /** The write callback with that drain. */
    method WriteDoneDraining()
      requires Valid() && locked
      modifies this
      ensures Valid() && Drained() && written == old(written)
      ensures
        var s := Skip(old(queue));
        if s == [] then !locked && queue == [] && stdout == old(stdout)
        else locked && queue == s[1..] && stdout == old(stdout) + [s[0]]
    {
      locked := false;
      ExhaustQueueDraining();
    }
  }

  /** A text queued behind an empty one is stranded: after a write of
      "x", then `eraseLines(0)` (which queues "") and a write of "y" while
      "x" is in flight, the callback of "x" shifts "" and unlocks, and "y"
      stays queued with nothing in flight to drain it. */
  method StrandedText() returns (q: LockedQueue)
    ensures !q.locked && q.queue == [[Blank]] && q.stdout == [[Heading]]
    ensures !q.Drained()
  {
    q := new LockedQueue();
    q.Write([Heading], false);
    EraseCodesCounts(0);
    q.EraseLines(0);
    q.Write([Blank], false);
    q.WriteDone();
  }

  /** With the draining callback the same writes leave nothing behind. */
  method StrandedTextDrained() returns (q: LockedQueue)
    ensures q.locked && q.queue == []
    ensures q.stdout == [[Heading], [Blank]]
  {
    q := new LockedQueue();
    q.WriteDraining([Heading], false);
    q.WriteDraining([], false);
    q.WriteDraining([Blank], false);
    q.WriteDoneDraining();
  }
}
