/** The queue of `AppState` through which other threads update the interface: tasks that may post
    further tasks while they run. */
module UiQueue {
  import opened Seqs

  /** A posted closure: what it does, and what it posts when it runs. */
  datatype Task<E> = Task(effect: E, posts: seq<Task<E>>)

  // ---------------------------------------------------------------------------------------------

  datatype Queue<E> = Queue(waiting: seq<Task<E>>, done: seq<Task<E>>)

  function PostAll<E>(tasks: seq<Task<E>>): seq<Task<E>> {
    FlatMap((t: Task<E>) => t.posts, tasks)
  }

  /** One drain runs exactly the tasks that were waiting when it began. */
  function Drained<E>(q: Queue<E>): Queue<E> {
    Queue(PostAll(q.waiting), q.done + q.waiting)
  }

  class UiQueue<E> {
    var uiQueue: seq<Task<E>>
    /** The tasks that have run, in order */
    ghost var done: seq<Task<E>>

    ghost function State(): Queue<E>
      reads this
    {
      Queue(uiQueue, done)
    }

    constructor ()
      ensures State() == Queue([], [])
    {
      uiQueue, done := [], [];
    }

    method PostUi(t: Task<E>)
      modifies this
      ensures uiQueue == old(uiQueue) + [t] && done == old(done)
    {
      uiQueue := uiQueue + [t];
    }

    /** A task runs outside the lock and may post. */
    method Run(t: Task<E>)
      modifies this
      ensures uiQueue == old(uiQueue) + t.posts && done == old(done) + [t]
    {
      done := done + [t];
      for k := 0 to |t.posts|
        invariant uiQueue == old(uiQueue) + t.posts[..k] && done == old(done) + [t]
      {
        PostUi(t.posts[k]);
      }
    }

    method DrainUiQueue()
      modifies this
      ensures State() == Drained(old(State()))
    {
      var batch := uiQueue;
      uiQueue := [];
      for k := 0 to |batch|
        invariant uiQueue == PostAll(batch[..k]) && done == old(done) + batch[..k]
      {
        assert batch[..k + 1] == batch[..k] + [batch[k]];
        FlatMapSnoc((t: Task<E>) => t.posts, batch[..k], batch[k]);
        Run(batch[k]);
      }
      assert batch[..|batch|] == batch;
    }
  }

  // ---------------------------------------------------------------------------------------------
  // Runs: tasks posted from outside, and drains
  // ---------------------------------------------------------------------------------------------

  datatype Step<E> = Post(t: Task<E>) | Drain

  function Steps<E>(steps: seq<Step<E>>): Queue<E> {
    if steps == [] then Queue([], [])
    else
      var q := Steps(steps[..|steps| - 1]);
      match steps[|steps| - 1]
      case Post(t) => q.(waiting := q.waiting + [t])
      case Drain => Drained(q)
  }

  /** Everything ever posted, from outside or by a running task, in the order of posting. */
  function Posted<E>(steps: seq<Step<E>>): seq<Task<E>> {
    if steps == [] then []
    else
      var init := steps[..|steps| - 1];
      match steps[|steps| - 1]
      case Post(t) => Posted(init) + [t]
      case Drain => Posted(init) + PostAll(Steps(init).waiting)
  }

  /** Tasks run once each, in the order of posting: those that have run, then those waiting, are all that
      were posted. */
  lemma {:induction false} RunOrderIsPostOrder<E>(steps: seq<Step<E>>)
    ensures Steps(steps).done + Steps(steps).waiting == Posted(steps)
  {
    if steps != [] {
      var init := steps[..|steps| - 1];
      RunOrderIsPostOrder(init);
      var q := Steps(init);
      match steps[|steps| - 1]
      case Post(t) => Reassociate(q.done, q.waiting, [t]);
      case Drain =>
    }
  }

  /** How deeply tasks post tasks. */
  function Depth<E>(tasks: seq<Task<E>>): nat {
    if tasks == [] then 0
    else
      var first, rest := 1 + Depth(tasks[0].posts), Depth(tasks[1..]);
      if first > rest then first else rest
  }

  lemma {:induction false} DepthConcat<E>(a: seq<Task<E>>, b: seq<Task<E>>)
    ensures Depth(a + b) == if Depth(a) > Depth(b) then Depth(a) else Depth(b)
  {
    if a == [] {
      assert a + b == b;
    } else {
      DepthConcat(a[1..], b);
      assert (a + b)[1..] == a[1..] + b;
    }
  }

  lemma {:induction false} DepthOfPosts<E>(tasks: seq<Task<E>>)
    ensures Depth(PostAll(tasks)) == if tasks == [] then 0 else Depth(tasks) - 1
  {
    if tasks != [] {
      DepthOfPosts(tasks[1..]);
      DepthConcat(tasks[0].posts, PostAll(tasks[1..]));
    }
  }

  function DrainTimes<E>(q: Queue<E>, n: nat): Queue<E>
    decreases n
  {
    if n == 0 then q else DrainTimes(Drained(q), n - 1)
  }

  /** Re-entrant posting ends: the queue is empty after exactly as many drains as tasks nest. */
  lemma {:induction false} DrainsUntilEmpty<E>(q: Queue<E>, n: nat)
    ensures DrainTimes(q, n).waiting == [] <==> n >= Depth(q.waiting)
    decreases n
  {
    if n > 0 {
      DepthOfPosts(q.waiting);
      DrainsUntilEmpty(Drained(q), n - 1);
    }
  }
}
