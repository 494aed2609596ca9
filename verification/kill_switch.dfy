/** The session kill switch: streams registered per user in a slice, appended and removed in place, and a trigger that
    closes every stream of a user while reading that slice's array without the lock. */
module KillSwitch {
  import opened Common

  type Channel = nat

  /** Where the registered channels are while a trigger runs: still in the first `live` slots of the array the trigger
      reads, or in another array since an append found that one full or the last stream of the user ended. */
  datatype Slice = Shared(live: nat) | Moved(channels: seq<Channel>)

  /** `cells` is the whole array the trigger reads; it took the slice when the first `stop` slots were registered and has
      visited those before `at`. */
  datatype State = State(cells: seq<Channel>, stop: nat, at: nat, closed: set<Channel>, count: nat, slice: Slice)

  /** The trigger visits its next slot, a stream starts and registers, or a stream ends and removes itself. */
  datatype Action = Visit | Register(ch: Channel) | Deregister(ch: Channel)

  function IndexOf(s: seq<Channel>, n: nat, ch: Channel): (i: nat)
    requires n <= |s|
    ensures i <= n && (i < n ==> s[i] == ch)
    ensures i == n ==> forall j :: 0 <= j < n ==> s[j] != ch
  {
    if n == 0 then 0
    else if IndexOf(s, n - 1, ch) < n - 1 then IndexOf(s, n - 1, ch)
    else if s[n - 1] == ch then n - 1 else n
  }

  /** append(channels[:i], channels[i+1:]...): later elements move down one slot, the last slot keeps its value. */
  function ShiftDown(s: seq<Channel>, i: nat, n: nat): (r: seq<Channel>)
    requires i < n <= |s|
    ensures |r| == |s|
    ensures forall p :: 0 <= p < i || n - 1 <= p < |s| ==> r[p] == s[p]
    ensures forall p :: i < p < n ==> r[p - 1] == s[p]
  {
    s[..i] + s[i + 1..n] + s[n - 1..]
  }

  ghost predicate Sized(k: State) {
    k.at <= k.stop <= |k.cells| && (k.slice.Shared? ==> k.slice.live <= |k.cells|)
  }

  function Next(k: State, a: Action): State
    requires Sized(k)
  {
    match a
    case Visit =>
      if k.at >= k.stop then k
      else
        var ch := k.cells[k.at];
        k.(at := k.at + 1, closed := k.closed + {ch}, count := k.count + if ch in k.closed then 0 else 1)
    case Register(ch) =>
      if k.slice.Moved? then k.(slice := Moved(k.slice.channels + [ch]))
      else
        var n := k.slice.live;
        if n < |k.cells| then k.(cells := k.cells[n := ch], slice := Shared(n + 1))
        else k.(slice := Moved(k.cells[..n] + [ch]))
    case Deregister(ch) =>
      var n := |Registered(k)|;
      var i := IndexOf(Registered(k), n, ch);
      if i == n then k
      else if n == 1 then k.(slice := Moved([]))
      else if k.slice.Moved? then k.(slice := Moved(ShiftDown(k.slice.channels, i, n)[..n - 1]))
      else k.(cells := ShiftDown(k.cells, i, n), slice := Shared(n - 1))
  }

  /** The user's registered channels, in slice order. */
  function Registered(k: State): seq<Channel>
    requires Sized(k)
  {
    if k.slice.Shared? then k.cells[..k.slice.live] else k.slice.channels
  }

  // ---------------------------------------------------------------- the server

  class Server {
    /** The slice of one user: its array and its length. */
    var cells: array<Channel>
    var live: nat
    var closed: set<Channel>
    /** The local variables of a running trigger. */
    var channels: array<Channel>
    var stop: nat
    var at: nat
    var count: nat

    ghost predicate Valid() reads this { live <= cells.Length && at <= stop <= channels.Length }

    ghost function Abs(): (k: State)
      requires Valid()
      reads this, cells, channels
      ensures Sized(k)
    {
      State(channels[..], stop, at, closed, count, if cells == channels then Shared(live) else Moved(cells[..live]))
    }

    constructor ()
      ensures Valid() && fresh(cells) && live == 0 && closed == {} && at == stop
    {
      cells := new Channel[0];
      channels := new Channel[0];
      live, closed, stop, at, count := 0, {}, 0, 0, 0;
    }

    /** A new stream appends its channel: in place while the array has room, else in a larger copy of `capacity` slots. */
    method Add(ch: Channel, capacity: nat)
      requires Valid() && capacity > cells.Length
      modifies this`cells, this`live, cells
      ensures Valid() && live == old(live) + 1
      ensures if old(live) < old(cells.Length) then cells == old(cells) else fresh(cells) && cells.Length == capacity
      ensures cells[..live] == old(cells[..live]) + [ch]
      ensures Abs() == Next(old(Abs()), Register(ch))
    {
      if live < cells.Length {
        cells[live] := ch;
      } else {
        var copy := new Channel[capacity](i requires 0 <= i reads this, cells => if i < cells.Length then cells[i] else 0);
        assert copy[..live] == cells[..live];
        cells := copy;
        cells[live] := ch;
      }
      live := live + 1;
      assert cells[..live] == old(cells[..live]) + [ch];
    }

    method Find(ch: Channel) returns (i: nat)
      requires Valid()
      ensures i == IndexOf(cells[..live], live, ch)
    {
      i := 0;
      while i < live && cells[i] != ch
        invariant 0 <= i <= live && forall j :: 0 <= j < i ==> cells[j] != ch
      {
        i := i + 1;
      }
      IndexIsFirst(cells[..live], live, ch, i);
    }

    /** append(channels[:i], channels[i+1:]...) on the array itself. */
    method CloseGap(i: nat)
      requires Valid() && i < live
      modifies this`live, cells
      ensures Valid() && live == old(live) - 1
      ensures cells[..] == ShiftDown(old(cells[..]), i, old(live))
    {
      ghost var before := cells[..];
      var j := i;
      while j + 1 < live
        invariant i <= j < live && live == old(live)
        invariant forall k :: 0 <= k < i || j <= k < cells.Length ==> cells[k] == before[k]
        invariant forall k :: i < k <= j ==> cells[k - 1] == before[k]
      {
        cells[j] := cells[j + 1];
        j := j + 1;
      }
      ShiftIs(before, i, live, cells[..]);
      live := live - 1;
    }

    /** The deferred removal of a stream that ended; without streams the user's entry goes. */
    method Remove(ch: Channel)
      requires Valid()
      modifies this`cells, this`live, cells
      ensures Valid() && (cells == old(cells) || fresh(cells))
      ensures Abs() == Next(old(Abs()), Deregister(ch))
      ensures ch !in old(cells[..live]) ==> live == old(live) && cells == old(cells)
      ensures ch in old(cells[..live]) ==> live == old(live) - 1 && (cells != old(cells) <==> live == 0)
    {
      hide Next, ShiftDown, IndexOf;
      ghost var k := Abs();
      var i := Find(ch);
      RemovalIs(k, ch, i);
      if i == live { return; }
      ghost var was, n := cells[..], live;
      ShiftPrefix(was, i, n);
      CloseGap(i);
      if live == 0 {
        ShiftLast(was);
        assert cells[..] == was;
        cells := new Channel[0];
      } else {
        assert cells[..live] == cells[..][..live];
      }
      assert Abs() == Next(k, Deregister(ch));
    }

    /** The trigger takes the slice under the lock. */
    method Begin()
      requires Valid()
      modifies this`channels, this`stop, this`at, this`count
      ensures Valid() && Abs() == State(cells[..], live, 0, closed, 0, Shared(live))
    {
      channels, stop, at, count := cells, live, 0, 0;
    }

    /** One round of the trigger's loop, without the lock: closes the channel in the next slot if it is open. */
    method CloseNext()
      requires Valid() && at < stop
      modifies this`closed, this`at, this`count
      ensures Valid() && at == old(at) + 1
      ensures closed == old(closed) + {channels[old(at)]}
      ensures count == old(count) + if channels[old(at)] in old(closed) then 0 else 1
    {
      var ch := channels[at];
      if ch !in closed {
        closed := closed + {ch};
        count := count + 1;
      }
      at := at + 1;
    }

    /** The same as a step of a run. */
    method Step()
      requires Valid() && at < stop
      modifies this`closed, this`at, this`count
      ensures Valid() && Abs() == Next(old(Abs()), Visit)
    {
      CloseNext();
    }

    /** triggerKillSwitch when no stream starts or ends while it runs: it closes exactly the registered channels and
        returns how many of them were open. */
    method Trigger() returns (closedNow: nat)
      requires Valid()
      modifies this`channels, this`stop, this`at, this`count, this`closed
      ensures closed == old(closed) + Elements(cells[..live])
      ensures closedNow == |Elements(cells[..live]) - old(closed)|
    {
      hide Elements, ClosedSoFar;
      ghost var before, slice := closed, cells[..live];
      Begin();
      ClosedNone(slice, before);
      while at < stop
        invariant Valid() && channels == cells && stop == live == |slice| && cells[..live] == slice
        invariant ClosedSoFar(slice, at, before, closed, count)
      {
        ClosedOneMore(slice, at, before, closed, count);
        assert channels[at] == slice[at];
        CloseNext();
      }
      ClosedAll(slice, before, closed, count);
      return count;
    }
  }

  /** After the first `n` slots of the slice: they are closed beside what was closed `before`, and `count` is how many that
      were not. */
  ghost predicate ClosedSoFar(slice: seq<Channel>, n: nat, before: set<Channel>, closed: set<Channel>, count: nat)
    requires n <= |slice|
  {
    closed == before + Elements(slice[..n]) && count == |Elements(slice[..n]) - before|
  }

  lemma ClosedNone(slice: seq<Channel>, before: set<Channel>)
    ensures ClosedSoFar(slice, 0, before, before, 0)
  {
    NoElements(slice[..0], before);
  }

  lemma ClosedOneMore(slice: seq<Channel>, n: nat, before: set<Channel>, closed: set<Channel>, count: nat)
    requires n < |slice| && ClosedSoFar(slice, n, before, closed, count)
    ensures ClosedSoFar(slice, n + 1, before, closed + {slice[n]}, count + if slice[n] in closed then 0 else 1)
  {
    hide Elements;
    OneMore(slice[..n], slice[n], before);
    assert slice[..n + 1] == slice[..n] + [slice[n]];
  }

  lemma ClosedAll(slice: seq<Channel>, before: set<Channel>, closed: set<Channel>, count: nat)
    requires ClosedSoFar(slice, |slice|, before, closed, count)
    ensures closed == before + Elements(slice) && count == |Elements(slice) - before|
  {
    assert slice[..|slice|] == slice;
  }

  function Elements(s: seq<Channel>): set<Channel> { set x | x in s }

  lemma NoElements(s: seq<Channel>, before: set<Channel>)
    requires s == []
    ensures Elements(s) == {} && |Elements(s) - before| == 0
  {
    assert Elements(s) - before == {};
  }

  lemma OneMore(s: seq<Channel>, x: Channel, before: set<Channel>)
    ensures Elements(s + [x]) == Elements(s) + {x}
    ensures |Elements(s + [x]) - before| == |Elements(s) - before| + if x in before + Elements(s) then 0 else 1
  {
    if x in before + Elements(s) {
      assert Elements(s + [x]) - before == Elements(s) - before;
    } else {
      assert Elements(s + [x]) - before == (Elements(s) - before) + {x};
    }
  }

  lemma {:induction false} IndexIsFirst(s: seq<Channel>, n: nat, ch: Channel, i: nat)
    requires i <= n <= |s| && (forall j :: 0 <= j < i ==> s[j] != ch) && (i < n ==> s[i] == ch)
    ensures IndexOf(s, n, ch) == i
  {
    if n > 0 {
      if i < n { IndexIsFirst(s, n - 1, ch, if i < n - 1 then i else n - 1); }
    }
  }

  lemma ShiftIs(s: seq<Channel>, i: nat, n: nat, r: seq<Channel>)
    requires i < n <= |s| && |r| == |s|
    requires forall p :: 0 <= p < i || n - 1 <= p < |s| ==> r[p] == s[p]
    requires forall p :: i < p < n ==> r[p - 1] == s[p]
    ensures r == ShiftDown(s, i, n)
  {
    var t := ShiftDown(s, i, n);
    forall p | 0 <= p < |s| ensures r[p] == t[p] {
      if i <= p < n - 1 { assert r[(p + 1) - 1] == s[p + 1] && t[(p + 1) - 1] == s[p + 1]; }
    }
  }

  lemma ShiftPrefix(s: seq<Channel>, i: nat, n: nat)
    requires i < n <= |s|
    ensures ShiftDown(s, i, n)[..n - 1] == ShiftDown(s[..n], i, n)[..n - 1]
  {
  }

  lemma ShiftLast(s: seq<Channel>)
    requires |s| > 0
    ensures ShiftDown(s, 0, 1) == s
  {
  }

  lemma RemovalIs(k: State, ch: Channel, i: nat)
    requires Sized(k) && i == IndexOf(Registered(k), |Registered(k)|, ch)
    ensures var n := |Registered(k)|;
            Next(k, Deregister(ch)) ==
              if i == n then k
              else if n == 1 then k.(slice := Moved([]))
              else if k.slice.Moved? then k.(slice := Moved(ShiftDown(k.slice.channels, i, n)[..n - 1]))
              else k.(cells := ShiftDown(k.cells, i, n), slice := Shared(n - 1))
  {
    hide ShiftDown, IndexOf;
  }

  /** Where the channel in slot `p` after a removal was before it. */
  lemma ShiftFrom(s: seq<Channel>, i: nat, n: nat, p: nat)
    requires i < n <= |s| && p < |s|
    ensures ShiftDown(s, i, n)[p] == s[if i <= p < n - 1 then p + 1 else p]
  {
    if i <= p < n - 1 { assert ShiftDown(s, i, n)[(p + 1) - 1] == s[p + 1]; }
  }

  // ---------------------------------------------------------------- streams that start and end while the trigger runs

  /** A trigger that has just taken the slice, over distinct channels. */
  ghost predicate Starts(k: State) {
    Sized(k) && k.at == 0 && k.slice == Shared(k.stop) && NoDup(k.cells[..k.stop])
  }

  /** A run of the trigger among other streams; the channel of a new stream is a new one. */
  ghost predicate IsRun(states: seq<State>, actions: seq<Action>) {
    && |states| == |actions| + 1 && Starts(states[0])
    && (forall i :: 0 <= i < |states| ==> Sized(states[i]))
    && (forall i :: 0 <= i < |actions| ==> states[i + 1] == Next(states[i], actions[i]))
    && (forall i :: 0 <= i < |actions| && actions[i].Register? ==> actions[i].ch !in Registered(states[0]))
  }

  ghost predicate Ahead(k: State, ch: Channel)
    requires Sized(k)
  {
    exists q :: k.at <= q < k.stop && k.cells[q] == ch
  }

  ghost predicate OnlySlotAhead(k: State, ch: Channel, q: nat)
    requires Sized(k)
  {
    k.at <= q < k.stop && k.cells[q] == ch && forall r :: k.at <= r < k.stop && r != q ==> k.cells[r] != ch
  }

  /** The step takes the only slot ahead of the trigger away from the open channel of a registered stream. A removal
      behind the trigger pulls the channel at the cursor under it, unless that is the last of the slice and its old slot
      keeps it; a new stream overwrites such a leftover slot. */
  ghost predicate Strands(k: State, a: Action, ch: Channel)
    requires Sized(k)
  {
    k.slice.Shared? && ch !in k.closed &&
    match a
    case Visit => false
    case Register(_) => OnlySlotAhead(k, ch, k.slice.live) && ch in Registered(k)
    case Deregister(x) =>
      IndexOf(Registered(k), |Registered(k)|, x) < k.at < k.slice.live - 1 && OnlySlotAhead(k, ch, k.at)
  }

  /** A channel registered from the start has one registered slot, among those the trigger reads. */
  ghost predicate Single(k: State, ch: Channel)
    requires Sized(k)
  {
    && (forall p, q :: 0 <= p < q < |Registered(k)| ==> !(Registered(k)[p] == ch && Registered(k)[q] == ch))
    && (k.slice.Shared? ==> forall p :: k.stop <= p < k.slice.live ==> k.cells[p] != ch)
  }

  ghost predicate OnTrack(k: State, ch: Channel)
    requires Sized(k)
  {
    ch in k.closed || Ahead(k, ch)
  }

  lemma SizedStep(k: State, a: Action)
    requires Sized(k)
    ensures Sized(Next(k, a)) && Next(k, a).stop == k.stop
  {
  }

  /** What a removal leaves registered. */
  lemma RemovalRegistered(k: State, x: Channel)
    requires Sized(k)
    ensures Sized(Next(k, Deregister(x)))
    ensures var s, n, s' := Registered(k), |Registered(k)|, Registered(Next(k, Deregister(x)));
            var i := IndexOf(s, n, x);
            if i == n then s' == s
            else |s'| == n - 1 && forall p :: 0 <= p < n - 1 ==> s'[p] == s[if i <= p then p + 1 else p]
  {
    hide ShiftDown, IndexOf;
    var s, n := Registered(k), |Registered(k)|;
    var i := IndexOf(s, n, x);
    RemovalIs(k, x, i);
    SizedStep(k, Deregister(x));
    if i < n && n > 1 {
      var cells := if k.slice.Shared? then k.cells else k.slice.channels;
      forall p | 0 <= p < n - 1 ensures ShiftDown(cells, i, n)[p] == s[if i <= p then p + 1 else p] { ShiftFrom(cells, i, n, p); }
    }
  }

  lemma RegisteredAfter(k: State, x: Channel)
    requires Sized(k)
    ensures Sized(Next(k, Register(x))) && Registered(Next(k, Register(x))) == Registered(k) + [x]
  {
  }

  lemma VisitRegistered(k: State)
    requires Sized(k)
    ensures var k' := Next(k, Visit);
            Sized(k') && k'.slice == k.slice && k'.cells == k.cells && k'.stop == k.stop && Registered(k') == Registered(k)
  {
    hide ShiftDown, IndexOf;
  }

  lemma RegisteredStep(k: State, a: Action, ch: Channel)
    requires Sized(k) && Single(k, ch) && a != Register(ch)
    ensures Sized(Next(k, a))
    ensures ch in Registered(Next(k, a)) <==> ch in Registered(k) && a != Deregister(ch)
  {
    hide Next, ShiftDown, IndexOf, Registered;
    SizedStep(k, a);
    match a
    case Visit => VisitRegistered(k);
    case Register(x) => RegisteredAfter(k, x);
    case Deregister(x) => RemovalMembers(k, x, ch);
  }

  lemma RemovalMembers(k: State, x: Channel, ch: Channel)
    requires Sized(k) && Single(k, ch)
    ensures Sized(Next(k, Deregister(x)))
    ensures ch in Registered(Next(k, Deregister(x))) <==> ch in Registered(k) && x != ch
  {
    hide Next, ShiftDown, IndexOf, Registered;
    RemovalRegistered(k, x);
    var s, n, s' := Registered(k), |Registered(k)|, Registered(Next(k, Deregister(x)));
    var i := IndexOf(s, n, x);
    if ch in s && ch != x {
      var p :| 0 <= p < n && s[p] == ch;
      if i < n { assert s'[if p < i then p else p - 1] == ch; }
    }
  }

  lemma SingleStep(k: State, a: Action, ch: Channel)
    requires Sized(k) && Single(k, ch) && a != Register(ch)
    ensures Sized(Next(k, a)) && Single(Next(k, a), ch)
  {
    hide Next, ShiftDown, IndexOf, Registered, Single;
    SizedStep(k, a);
    match a
    case Visit => SingleVisit(k, ch);
    case Register(x) => SingleRegister(k, x, ch);
    case Deregister(x) => SingleRemoval(k, x, ch);
  }

  lemma SingleVisit(k: State, ch: Channel)
    requires Sized(k) && Single(k, ch)
    ensures Sized(Next(k, Visit)) && Single(Next(k, Visit), ch)
  {
    hide Next, Registered;
    VisitRegistered(k);
  }

  lemma SingleRegister(k: State, x: Channel, ch: Channel)
    requires Sized(k) && Single(k, ch) && x != ch
    ensures Sized(Next(k, Register(x))) && Single(Next(k, Register(x)), ch)
  {
    hide Registered, ShiftDown, IndexOf;
    RegisteredAfter(k, x);
  }

  lemma SingleRemoval(k: State, x: Channel, ch: Channel)
    requires Sized(k) && Single(k, ch)
    ensures Sized(Next(k, Deregister(x))) && Single(Next(k, Deregister(x)), ch)
  {
    hide Next, IndexOf, ShiftDown;
    var i := IndexOf(Registered(k), |Registered(k)|, x);
    SizedStep(k, Deregister(x));
    RemovalRegistered(k, x);
    RemovalIs(k, x, i);
  }

  lemma VisitKeepsTrack(k: State, ch: Channel)
    requires Sized(k)
    ensures Sized(Next(k, Visit))
    ensures OnTrack(Next(k, Visit), ch) <==> OnTrack(k, ch)
  {
    if Ahead(k, ch) && ch !in Next(k, Visit).closed {
      var q :| k.at <= q < k.stop && k.cells[q] == ch;
      assert Next(k, Visit).cells[q] == ch && q != k.at;
    }
  }

  lemma RegisterKeepsTrack(k: State, a: Action, ch: Channel)
    requires Sized(k) && a.Register? && a.ch != ch && ch in Registered(k)
    ensures Sized(Next(k, a))
    ensures OnTrack(Next(k, a), ch) <==> OnTrack(k, ch) && !Strands(k, a, ch)
  {
    var k' := Next(k, a);
    if Ahead(k, ch) && !Strands(k, a, ch) && ch !in k.closed {
      var q :| k.at <= q < k.stop && k.cells[q] == ch && (k.slice.Shared? ==> q != k.slice.live);
      assert k'.cells[q] == ch;
    }
    if Ahead(k', ch) {
      var q :| k'.at <= q < k'.stop && k'.cells[q] == ch;
      assert k.cells[q] == ch;
    }
  }

  lemma RemovalKeepsTrack(k: State, a: Action, ch: Channel)
    requires Sized(k) && Single(k, ch) && a.Deregister? && a.ch != ch && ch in Registered(k)
    ensures Sized(Next(k, a))
    ensures OnTrack(Next(k, a), ch) <==> OnTrack(k, ch) && !Strands(k, a, ch)
  {
    hide Next, ShiftDown, IndexOf;
    var n, k' := |Registered(k)|, Next(k, a);
    var i := IndexOf(Registered(k), n, a.ch);
    SizedStep(k, a);
    RemovalIs(k, a.ch, i);
    if k.slice.Shared? && i < n && n > 1 {
      forall p | 0 <= p < |k.cells| ensures k'.cells[p] == k.cells[if i <= p < n - 1 then p + 1 else p] {
        ShiftFrom(k.cells, i, n, p);
      }
      if Ahead(k, ch) && !Strands(k, a, ch) && ch !in k.closed {
        var q := SlotThatStays(k, i, ch);
        var q' := if i < q < n - 1 then q - 1 else q;
        assert k'.cells[q'] == ch;
      }
      if Ahead(k', ch) {
        var q :| k'.at <= q < k'.stop && k'.cells[q] == ch;
        NotFromBeyond(k, i, ch, q);
      }
    }
  }

  /** A slot ahead that is still ahead after the removal of slot `i`. */
  lemma SlotThatStays(k: State, i: nat, ch: Channel) returns (q: nat)
    requires Sized(k) && k.slice.Shared? && i < k.slice.live && k.cells[i] != ch && Ahead(k, ch)
    requires !(i < k.at < k.slice.live - 1 && OnlySlotAhead(k, ch, k.at))
    ensures k.at <= q < k.stop && k.cells[q] == ch && q != i && !(i < k.at == q < k.slice.live - 1)
  {
    q :| k.at <= q < k.stop && k.cells[q] == ch;
    if i < k.at == q < k.slice.live - 1 {
      q :| k.at <= q < k.stop && k.cells[q] == ch && q != k.at;
    }
  }

  /** A removal brings no channel into the trigger's slots that was not there. */
  lemma NotFromBeyond(k: State, i: nat, ch: Channel, q: nat)
    requires Sized(k) && k.slice.Shared? && Single(k, ch) && i < k.slice.live && k.at <= q < k.stop
    requires k.cells[if i <= q < k.slice.live - 1 then q + 1 else q] == ch
    ensures exists r :: k.at <= r < k.stop && k.cells[r] == ch
  {
    var r := if i <= q < k.slice.live - 1 then q + 1 else q;
    assert r < k.stop;
  }

  /** One step of the others or of the trigger keeps a registered stream on track exactly when it does not strand it. */
  lemma TrackStep(k: State, a: Action, ch: Channel)
    requires Sized(k) && Single(k, ch) && ch in Registered(k) && a != Register(ch) && a != Deregister(ch)
    ensures Sized(Next(k, a))
    ensures OnTrack(Next(k, a), ch) <==> OnTrack(k, ch) && !Strands(k, a, ch)
  {
    hide Next, OnTrack;
    match a
    case Visit => VisitKeepsTrack(k, ch);
    case Register(_) => RegisterKeepsTrack(k, a, ch);
    case Deregister(_) => RemovalKeepsTrack(k, a, ch);
  }

  ghost predicate Stranded(states: seq<State>, actions: seq<Action>, i: nat, ch: Channel)
    requires IsRun(states, actions) && i <= |actions|
  {
    exists m :: 0 <= m < i && Strands(states[m], actions[m], ch)
  }

  ghost predicate Ended(actions: seq<Action>, m: int, i: nat, ch: Channel)
    requires i <= |actions|
  {
    exists n :: m < n < i && n >= 0 && actions[n] == Deregister(ch)
  }

  lemma {:induction false} StreamHistory(states: seq<State>, actions: seq<Action>, i: nat, ch: Channel)
    requires IsRun(states, actions) && i < |states| && ch in Registered(states[0])
    ensures Single(states[i], ch)
    ensures ch in Registered(states[i]) <==> !Ended(actions, -1, i, ch)
    ensures ch in Registered(states[i]) ==> (OnTrack(states[i], ch) <==> !Stranded(states, actions, i, ch))
  {
    hide Next, Strands, OnTrack;
    if i == 0 {
      StartOnTrack(states[0], ch);
    } else {
      var k, a := states[i - 1], actions[i - 1];
      StreamHistory(states, actions, i - 1, ch);
      SingleStep(k, a, ch);
      RegisteredStep(k, a, ch);
      assert Ended(actions, -1, i, ch) <==> Ended(actions, -1, i - 1, ch) || a == Deregister(ch);
      if ch in Registered(states[i]) {
        TrackStep(k, a, ch);
        assert Stranded(states, actions, i, ch) <==> Stranded(states, actions, i - 1, ch) || Strands(k, a, ch);
      }
    }
  }

  lemma StartOnTrack(k: State, ch: Channel)
    requires Starts(k) && ch in Registered(k)
    ensures Single(k, ch) && OnTrack(k, ch)
  {
    var p :| 0 <= p < k.stop && k.cells[p] == ch;
    assert k.at <= p < k.stop;
  }

  lemma {:induction false} StopFixed(states: seq<State>, actions: seq<Action>, i: nat)
    requires IsRun(states, actions) && i < |states|
    ensures states[i].stop == states[0].stop
  {
    if i > 0 {
      StopFixed(states, actions, i - 1);
      SizedStep(states[i - 1], actions[i - 1]);
    }
  }

  /** When the trigger is through, a stream registered from its start to its end is closed if and only if no step
      stranded it. */
  lemma ClosedExactly(states: seq<State>, actions: seq<Action>, ch: Channel)
    requires IsRun(states, actions)
    requires states[|actions|].at == states[|actions|].stop
    requires ch in Registered(states[0]) && ch in Registered(states[|actions|])
    ensures ch in states[|actions|].closed <==> !Stranded(states, actions, |actions|, ch)
  {
    hide Next, Strands;
    StreamHistory(states, actions, |actions|, ch);
  }

  /** The trigger closes every stream that is registered from its start to its end if and only if each stream that some
      step strands also ends after that step. */
  lemma TriggerClosesAllExactly(states: seq<State>, actions: seq<Action>)
    requires IsRun(states, actions)
    requires states[|actions|].at == states[|actions|].stop
    ensures (forall ch :: ch in Registered(states[0]) && ch in Registered(states[|actions|]) ==> ch in states[|actions|].closed)
            <==> forall m, ch :: 0 <= m < |actions| && ch in Registered(states[0]) && Strands(states[m], actions[m], ch)
                   ==> Ended(actions, m, |actions|, ch)
  {
    hide Next, Strands;
    var all := |actions|;
    forall m, ch | 0 <= m < all && ch in Registered(states[0]) && Strands(states[m], actions[m], ch)
      ensures Ended(actions, m, all, ch) <==> ch !in Registered(states[all])
    {
      StrandedIsRegistered(states, actions, m, ch);
      StreamHistory(states, actions, all, ch);
    }
    forall ch | ch in Registered(states[0]) && ch in Registered(states[all])
      ensures ch in states[all].closed <==> !Stranded(states, actions, all, ch)
    {
      ClosedExactly(states, actions, ch);
    }
  }

  /** A stream that is stranded has not ended before, and does not end by that step. */
  lemma StrandedIsRegistered(states: seq<State>, actions: seq<Action>, m: nat, ch: Channel)
    requires IsRun(states, actions) && m < |actions| && ch in Registered(states[0]) && Strands(states[m], actions[m], ch)
    ensures forall n :: 0 <= n <= m ==> actions[n] != Deregister(ch)
  {
    hide Next, OnTrack, IndexOf;
    StreamHistory(states, actions, m, ch);
    var k := states[m];
    if actions[m].Deregister? {
      assert Registered(k)[k.at] == ch;
    }
  }

  lemma Chained(states: seq<State>, actions: seq<Action>)
    requires |states| == |actions| + 1 && Starts(states[0])
    requires forall i :: 0 <= i < |states| ==> Sized(states[i])
    requires forall i :: 0 <= i < |actions| ==> states[i + 1] == Next(states[i], actions[i])
    requires forall i :: 0 <= i < |actions| && actions[i].Register? ==> actions[i].ch !in states[0].cells
    ensures IsRun(states, actions)
  {
    hide Next;
  }

  /** A run that misses a stream: the first one ends after it was visited, which pulls the second under the cursor. */
  lemma HiddenStream(states: seq<State>, actions: seq<Action>)
    requires actions == [Visit, Deregister(0), Visit, Visit]
    requires states == [State([0, 1, 2], 3, 0, {}, 0, Shared(3)), State([0, 1, 2], 3, 1, {0}, 1, Shared(3)),
                        State([1, 2, 2], 3, 1, {0}, 1, Shared(2)), State([1, 2, 2], 3, 2, {0, 2}, 2, Shared(2)),
                        State([1, 2, 2], 3, 3, {0, 2}, 2, Shared(2))]
    ensures IsRun(states, actions)
    ensures 1 in Registered(states[0]) && 1 in Registered(states[4]) && 1 !in states[4].closed
  {
    FirstOfThreeEnds(states[1]);
    assert states[0].cells[..3] == states[0].cells;
    assert Registered(states[4])[0] == 1 && Registered(states[0])[1] == 1;
    Chained(states, actions);
  }

  /** And one where nothing is pulled under the cursor: the first stream ends when only the last is ahead, and then a new
      stream takes the slot that still held the last one. */
  lemma OverwrittenStream(states: seq<State>, actions: seq<Action>)
    requires actions == [Visit, Visit, Deregister(0), Register(9), Visit]
    requires states == [State([0, 1, 2], 3, 0, {}, 0, Shared(3)), State([0, 1, 2], 3, 1, {0}, 1, Shared(3)),
                        State([0, 1, 2], 3, 2, {0, 1}, 2, Shared(3)), State([1, 2, 2], 3, 2, {0, 1}, 2, Shared(2)),
                        State([1, 2, 9], 3, 2, {0, 1}, 2, Shared(3)), State([1, 2, 9], 3, 3, {0, 1, 9}, 3, Shared(3))]
    ensures IsRun(states, actions)
    ensures 2 in Registered(states[0]) && 2 in Registered(states[5]) && 2 !in states[5].closed
  {
    FirstOfThreeEnds(states[2]);
    assert states[0].cells[..3] == states[0].cells;
    assert states[3].cells[2 := 9] == states[4].cells;
    assert Registered(states[5])[1] == 2 && Registered(states[0])[2] == 2;
    Chained(states, actions);
  }

  lemma FirstOfThreeEnds(k: State)
    requires Sized(k) && k.cells == [0, 1, 2] && k.slice == Shared(3)
    ensures Next(k, Deregister(0)) == k.(cells := [1, 2, 2], slice := Shared(2))
  {
    assert Registered(k) == [0, 1, 2];
    IndexIsFirst([0, 1, 2], 3, 0, 0);
    RemovalIs(k, 0, 0);
    assert ShiftDown([0, 1, 2], 0, 3) == [1, 2, 2];
  }
}
