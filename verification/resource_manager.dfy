/** The resource loader queue of nae: pending (parser, file future) pairs that
    `try_load` polls once each, splitting them into finished and still pending.
    The futures are abstracted by a poll oracle giving, for each loader, the
    outcome of polling it now. */
module ResourceLoading {
  import opened Wrappers
  import opened Primitives

  /** Identity of the boxed resource parser waiting for a file's bytes. */
  type ParserId = nat

  /** A pending loader: the parser and the file whose `load_file` future it polls. */
  datatype Loader = Loader(parser: ParserId, file: string)

  /** The outcome of one `Future::poll`. */
  datatype Poll = Ready(data: seq<Byte>) | NotReady | PollError(message: string)

  datatype AssetState = OnProgress | AlreadyLoaded | Done(data: seq<Byte>)

  /** A finished loader: the bytes read and the parser to hand them to. */
  datatype Loaded = Loaded(data: seq<Byte>, parser: ParserId)

  datatype ResourceLoaderManager = ResourceLoaderManager(toLoad: seq<Loader>)

  /** `ResourceLoaderManager::new`. */
  function New(): (m: ResourceLoaderManager)
    ensures Len(m) == 0
  {
    ResourceLoaderManager([])
  }

  /** `len`: the number of pending loaders. */
  function Len(m: ResourceLoaderManager): (n: nat)
    ensures n == |m.toLoad|
  {
    |m.toLoad|
  }

  /** `add`: one loader for `file` appended after the others; always Ok. */
  function Add(m: ResourceLoaderManager, file: string, parser: ParserId): (r: (ResourceLoaderManager, Result<(), string>))
    ensures r.0.toLoad == m.toLoad + [Loader(parser, file)]
    ensures Len(r.0) == Len(m) + 1
    ensures r.1 == Success(())
  {
    (ResourceLoaderManager(m.toLoad + [Loader(parser, file)]), Success(()))
  }

  /** A run of `add` calls, one per (file, parser) request, in order. */
  function AddAll(m: ResourceLoaderManager, requests: seq<(string, ParserId)>): ResourceLoaderManager
    decreases |requests|
  {
    if |requests| == 0 then m
    else AddAll(Add(m, requests[0].0, requests[0].1).0, requests[1..])
  }

  /** `len` counts the `add` calls since `new`, and the queue holds one loader per
      request, in the order the requests were made. */
  lemma {:induction false} LenCountsAdds(m: ResourceLoaderManager, requests: seq<(string, ParserId)>)
    ensures Len(AddAll(m, requests)) == Len(m) + |requests|
    ensures AddAll(m, requests).toLoad[..Len(m)] == m.toLoad
    ensures forall i :: 0 <= i < |requests| ==>
              AddAll(m, requests).toLoad[Len(m) + i] == Loader(requests[i].1, requests[i].0)
    decreases |requests|
  {
    if |requests| > 0 {
      var next := Add(m, requests[0].0, requests[0].1).0;
      LenCountsAdds(next, requests[1..]);
      var r := AddAll(m, requests);
      assert r == AddAll(next, requests[1..]);
      assert r.toLoad[..Len(next)][..Len(m)] == r.toLoad[..Len(m)];
      forall i | 0 <= i < |requests| ensures r.toLoad[Len(m) + i] == Loader(requests[i].1, requests[i].0) {
        if i > 0 {
          assert requests[1..][i - 1] == requests[i];
        } else {
          assert r.toLoad[..Len(next)][Len(m)] == r.toLoad[Len(m)];
        }
      }
    }
  }

  /** `try_load_asset`: a ready future is Done with its bytes, a pending one is
      OnProgress, a failed one is the error; AlreadyLoaded never comes out. */
  function TryLoadAsset(p: Poll): (r: Result<AssetState, string>)
    ensures r.Success? ==> !r.value.AlreadyLoaded?
    ensures p.Ready? <==> r.Success? && r.value.Done?
    ensures p.Ready? ==> r.value.data == p.data
    ensures p.NotReady? <==> r == Success(OnProgress)
    ensures p.PollError? <==> r.Failure?
    ensures p.PollError? ==> r.error == p.message
  {
    match p
    case Ready(data) => Success(Done(data))
    case NotReady => Success(OnProgress)
    case PollError(msg) => Failure(msg)
  }

  // ---------------------------------------------------------------------------
  // Reference definitions, in the order the loaders are given

  function Reverse<T>(s: seq<T>): (r: seq<T>)
    ensures |r| == |s|
  {
    if |s| == 0 then [] else Reverse(s[1..]) + [s[0]]
  }

  lemma {:induction false} ReverseIndex<T>(s: seq<T>)
    ensures forall i :: 0 <= i < |s| ==> Reverse(s)[i] == s[|s| - 1 - i]
    decreases |s|
  {
    if |s| > 0 {
      ReverseIndex(s[1..]);
    }
  }

  /** No loader of `ls` fails when polled. */
  predicate NoPollError(ls: seq<Loader>, poll: Loader -> Poll) {
    forall i :: 0 <= i < |ls| ==> !poll(ls[i]).PollError?
  }

  /** The loaders of `ls` that are ready, with their bytes, in the order of `ls`. */
  function DoneOf(ls: seq<Loader>, poll: Loader -> Poll): (r: seq<Loaded>)
    ensures |r| <= |ls|
  {
    if |ls| == 0 then []
    else
      var last := ls[|ls| - 1];
      DoneOf(ls[..|ls| - 1], poll) + (if poll(last).Ready? then [Loaded(poll(last).data, last.parser)] else [])
  }

  /** The loaders of `ls` that are not ready yet, in the order of `ls`. */
  function NotReadyOf(ls: seq<Loader>, poll: Loader -> Poll): (r: seq<Loader>)
    ensures |r| <= |ls|
    ensures forall i :: 0 <= i < |r| ==> poll(r[i]).NotReady?
  {
    if |ls| == 0 then []
    else
      var last := ls[|ls| - 1];
      NotReadyOf(ls[..|ls| - 1], poll) + (if poll(last).NotReady? then [last] else [])
  }

  /** Without poll errors, each loader is counted exactly once: as done or as pending. */
  lemma {:induction false} SplitIsComplete(ls: seq<Loader>, poll: Loader -> Poll)
    requires NoPollError(ls, poll)
    ensures |DoneOf(ls, poll)| + |NotReadyOf(ls, poll)| == |ls|
    decreases |ls|
  {
    if |ls| > 0 {
      SplitIsComplete(ls[..|ls| - 1], poll);
    }
  }

  /** `try_load`. With nothing pending it returns Ok(None) and changes nothing.
      Otherwise loaders are popped from the back and polled once each: done
      ones are returned with their bytes, the rest stay pending, both lists in
      reverse of the pending order. The first poll error aborts: the error is
      returned, the not-yet-polled prefix stays pending, and the loaders popped
      earlier in the call are lost. */
  method TryLoad(m: ResourceLoaderManager, poll: Loader -> Poll)
    returns (m': ResourceLoaderManager, r: Result<Option<seq<Loaded>>, string>)
    ensures |m.toLoad| == 0 ==> m' == m && r == Success(None)
    ensures r.Failure? <==> !NoPollError(m.toLoad, poll)
    ensures r.Success? && |m.toLoad| > 0 ==>
              && r.value == Some(DoneOf(Reverse(m.toLoad), poll))
              && m'.toLoad == NotReadyOf(Reverse(m.toLoad), poll)
    ensures r.Failure? ==>
              var k := |m'.toLoad|;
              && k < |m.toLoad|
              && m'.toLoad == m.toLoad[..k]
              && poll(m.toLoad[k]) == PollError(r.error)
              && NoPollError(m.toLoad[k + 1..], poll)
  {
    if |m.toLoad| == 0 {
      return m, Success(None);
    }
    // `i` loaders are still in `to_load`: the pops take them from the back.
    var i := |m.toLoad|;
    var loaded: seq<Loaded> := [];
    var notLoaded: seq<Loader> := [];
    while i > 0
      invariant 0 <= i <= |m.toLoad|
      invariant NoPollError(m.toLoad[i..], poll)
      invariant loaded == DoneOf(Reverse(m.toLoad[i..]), poll)
      invariant notLoaded == NotReadyOf(Reverse(m.toLoad[i..]), poll)
      decreases i
    {
      i := i - 1;
      var loader := m.toLoad[i];
      PopStep(m.toLoad, i, poll);
      var state := TryLoadAsset(poll(loader));
      if state.Failure? {
        return ResourceLoaderManager(m.toLoad[..i]), Failure(state.error);
      }
      if state.value.Done? {
        loaded := loaded + [Loaded(state.value.data, loader.parser)];
      } else {
        notLoaded := notLoaded + [loader];
      }
    }
    assert m.toLoad[0..] == m.toLoad;
    return ResourceLoaderManager(notLoaded), Success(Some(loaded));
  }

  /** One iteration of `try_load`: popping loader `i` extends both reference
      lists by that loader's share, and a clean suffix stays clean. */
  lemma PopStep(ls: seq<Loader>, i: nat, poll: Loader -> Poll)
    requires i < |ls|
    ensures var x := ls[i];
            && DoneOf(Reverse(ls[i..]), poll)
               == DoneOf(Reverse(ls[i + 1..]), poll) + (if poll(x).Ready? then [Loaded(poll(x).data, x.parser)] else [])
            && NotReadyOf(Reverse(ls[i..]), poll)
               == NotReadyOf(Reverse(ls[i + 1..]), poll) + (if poll(x).NotReady? then [x] else [])
            && (NoPollError(ls[i + 1..], poll) && !poll(x).PollError? ==> NoPollError(ls[i..], poll))
            && (poll(x).PollError? ==> !NoPollError(ls, poll))
  {
    var x := ls[i];
    var rest := ls[i + 1..];
    assert ls[i..] == [x] + rest;
    assert ls[i..][1..] == rest;
    assert Reverse(ls[i..]) == Reverse(rest) + [x];
    assert Reverse(ls[i..])[..|rest|] == Reverse(rest);
    assert poll(x).PollError? ==> !NoPollError(ls, poll) by {
      if poll(x).PollError? {
        assert ls[i] == x;
      }
    }
  }

  // ---------------------------------------------------------------------------
  // Ordering facts

  /** Selecting the ready loaders commutes with reversal: the list `try_load`
      returns is the ready loaders in reverse of the order they were added. */
  lemma {:induction false} DoneOfReverse(ls: seq<Loader>, poll: Loader -> Poll)
    ensures DoneOf(Reverse(ls), poll) == Reverse(DoneOf(ls, poll))
    decreases |ls|
  {
    if |ls| > 0 {
      var n := |ls| - 1;
      var last := ls[n];
      var front := ls[..n];
      assert ls == front + [last];
      ReverseAppend(front, [last]);
      assert Reverse(ls) == [last] + Reverse(front);
      DoneOfPrepend(last, Reverse(front), poll);
      DoneOfReverse(front, poll);
      var tail := if poll(last).Ready? then [Loaded(poll(last).data, last.parser)] else [];
      ReverseAppend(DoneOf(front, poll), tail);
      assert Reverse(tail) == tail;
    }
  }

  /** Selecting the pending loaders commutes with reversal too. */
  lemma {:induction false} NotReadyOfReverse(ls: seq<Loader>, poll: Loader -> Poll)
    ensures NotReadyOf(Reverse(ls), poll) == Reverse(NotReadyOf(ls, poll))
    decreases |ls|
  {
    if |ls| > 0 {
      var n := |ls| - 1;
      var last := ls[n];
      var front := ls[..n];
      assert ls == front + [last];
      ReverseAppend(front, [last]);
      assert Reverse(ls) == [last] + Reverse(front);
      NotReadyOfPrepend(last, Reverse(front), poll);
      NotReadyOfReverse(front, poll);
      var tail := if poll(last).NotReady? then [last] else [];
      ReverseAppend(NotReadyOf(front, poll), tail);
      assert Reverse(tail) == tail;
    }
  }

  lemma ReverseAppend<T>(a: seq<T>, b: seq<T>)
    ensures Reverse(a + b) == Reverse(b) + Reverse(a)
  {
    var l, r := Reverse(a + b), Reverse(b) + Reverse(a);
    ReverseIndex(a + b);
    ReverseIndex(a);
    ReverseIndex(b);
    assert |l| == |r|;
    forall i | 0 <= i < |l| ensures l[i] == r[i] {
      if i < |b| {
        assert l[i] == (a + b)[|a| + |b| - 1 - i];
      } else {
        assert l[i] == (a + b)[|a| + |b| - 1 - i];
      }
    }
  }

  lemma ReverseReverse<T>(s: seq<T>)
    ensures Reverse(Reverse(s)) == s
  {
    ReverseIndex(s);
    ReverseIndex(Reverse(s));
  }

  lemma {:induction false} DoneOfPrepend(x: Loader, ls: seq<Loader>, poll: Loader -> Poll)
    ensures DoneOf([x] + ls, poll) == (if poll(x).Ready? then [Loaded(poll(x).data, x.parser)] else []) + DoneOf(ls, poll)
    decreases |ls|
  {
    if |ls| > 0 {
      var n := |ls| - 1;
      assert ([x] + ls)[..|ls|] == [x] + ls[..n];
      DoneOfPrepend(x, ls[..n], poll);
    } else {
      assert [x] + ls == [x];
      assert [x][..0] == [];
    }
  }

  lemma {:induction false} NotReadyOfPrepend(x: Loader, ls: seq<Loader>, poll: Loader -> Poll)
    ensures NotReadyOf([x] + ls, poll) == (if poll(x).NotReady? then [x] else []) + NotReadyOf(ls, poll)
    decreases |ls|
  {
    if |ls| > 0 {
      var n := |ls| - 1;
      assert ([x] + ls)[..|ls|] == [x] + ls[..n];
      NotReadyOfPrepend(x, ls[..n], poll);
    } else {
      assert [x] + ls == [x];
      assert [x][..0] == [];
    }
  }

  /** A successful `try_load` hands back the ready loaders newest first and keeps
      the others newest first; together they account for every loader it had. */
  lemma TryLoadOrder(m: ResourceLoaderManager, poll: Loader -> Poll)
    requires NoPollError(m.toLoad, poll)
    ensures DoneOf(Reverse(m.toLoad), poll) == Reverse(DoneOf(m.toLoad, poll))
    ensures NotReadyOf(Reverse(m.toLoad), poll) == Reverse(NotReadyOf(m.toLoad, poll))
    ensures |DoneOf(Reverse(m.toLoad), poll)| + |NotReadyOf(Reverse(m.toLoad), poll)| == Len(m)
  {
    DoneOfReverse(m.toLoad, poll);
    NotReadyOfReverse(m.toLoad, poll);
    SplitIsComplete(m.toLoad, poll);
  }
}
