/**
 * The reactor: the lists of tracked connections and their factories,
 * `connect`, `stop`, `is_ready`, `tick`, and the `select` pass that polls
 * the connections' descriptors and dispatches error-set reconnects,
 * writes and reads.
 *
 * Connections and factories are identities; what their methods do, and
 * what the `select.select` system call reports, comes from a `World` of
 * oracles that may depend on every call made so far (the `trace`). A call
 * that raises is recorded in the trace like any other.
 */
module Reactors {

  /** A connection object, by identity. */
  type Conn = nat

  /** A factory (a handler) object, by identity. */
  type Factory = nat

  /** The calls the reactor makes into connections, factories and the operating system. */
  datatype Event =
    | Built(factory: Factory)   // factory.build_protocol(host, port, secure)
    | Connected(conn: Conn)     // fd.connect()
    | Stopped(conn: Conn)       // _conn.stop()
    | Ticked(factory: Factory)  // factory.tick()
    | Probed                    // select.select(readable, writeable, errorable, 0)
    | Wrote(conn: Conn)         // fd.write()
    | ReadFrom(conn: Conn)      // fd.read()
    | Reconnected(conn: Conn)   // fd.reconnect()

  /** Which of the three lists `fd.fd_set` puts the connection's descriptor in. */
  datatype Interest = Interest(read: bool, write: bool, error: bool)

  datatype Kind = R | W | E

  function Wants(i: Interest, k: Kind): bool
  {
    match k
      case R => i.read
      case W => i.write
      case E => i.error
  }

  /** What `select.select` does: fail, or report which descriptors of each list are ready. */
  datatype Probe = Failed | Ready(readable: int -> bool, writeable: int -> bool, errored: int -> bool)

  /** The behaviour of everything outside the reactor, as a function of the calls made so far. */
  datatype World = World(
    build: (Factory, seq<Event>) -> Conn,
    raises: (Event, seq<Event>) -> bool,
    ready: (Factory, seq<Event>) -> bool,
    fileno: Conn -> int,
    interest: (Conn, seq<Event>) -> Interest,
    probe: seq<Event> -> Probe)

  /** How a reactor method ends: normally, or with an exception reaching its caller. */
  datatype Outcome = Normal | Raised

  /** How a phase of the `select` pass ends: go on, return from the pass, or raise. */
  datatype Flow = Go | Return | Raise

  /**
   * Which `_reconnect` the pass calls. `Unbound` is the method as declared,
   * without `self`; `SelfBound` adds `self` but keeps `list.remove`, which
   * raises for an absent element; `Corrected` removes the descriptor where
   * it is present. Only `Corrected` also reconnects, after a failed probe,
   * the connection that holds `readable[0]`: as written, `reconnect` is
   * looked up on the descriptor number itself and raises.
   */
  datatype Mode = Unbound | SelfBound | Corrected

  predicate Distinct(s: seq<int>)
  {
    forall i, j :: 0 <= i < j < |s| ==> s[i] != s[j]
  }

  // --------------------------------------------------------- plain calls

  /** Make the calls in order, each seeing the calls before it; stop after the first that raises. */
  function Calls(w: World, calls: seq<Event>, t: seq<Event>): (Outcome, seq<Event>)
    decreases |calls|
  {
    if |calls| == 0 then (Normal, t)
    else if w.raises(calls[0], t) then (Raised, t + [calls[0]])
    else Calls(w, calls[1..], t + [calls[0]])
  }

  /** `_conn.stop()` for each connection, in order. */
  function StopCalls(cs: seq<Conn>): (r: seq<Event>)
    ensures |r| == |cs| && forall i :: 0 <= i < |cs| ==> r[i] == Stopped(cs[i])
    decreases |cs|
  {
    if |cs| == 0 then [] else StopCalls(cs[..|cs| - 1]) + [Stopped(cs[|cs| - 1])]
  }

  /** `factory.tick()` for each factory, in order. */
  function TickCalls(fs: seq<Factory>): (r: seq<Event>)
    ensures |r| == |fs| && forall i :: 0 <= i < |fs| ==> r[i] == Ticked(fs[i])
    decreases |fs|
  {
    if |fs| == 0 then [] else TickCalls(fs[..|fs| - 1]) + [Ticked(fs[|fs| - 1])]
  }

  /** `is_ready`: there is a factory, and every factory is ready. */
  function AllReady(w: World, hs: seq<Factory>, t: seq<Event>): bool
  {
    |hs| > 0 && ReadyFrom(w, hs, t)
  }

  function ReadyFrom(w: World, hs: seq<Factory>, t: seq<Event>): bool
    decreases |hs|
  {
    |hs| == 0 || (w.ready(hs[0], t) && ReadyFrom(w, hs[1..], t))
  }

  // ------------------------------------------------------- classification

  /** The list of kind `k` after `fd.fd_set(readable, writeable, errorable)` for each connection, in order. */
  function Listed(w: World, cs: seq<Conn>, t: seq<Event>, k: Kind): seq<int>
    decreases |cs|
  {
    if |cs| == 0 then []
    else
      var c := cs[|cs| - 1];
      Listed(w, cs[..|cs| - 1], t, k) + (if Wants(w.interest(c, t), k) then [w.fileno(c)] else [])
  }

  /** `fd_map[fd.fileno()] = fd` for each connection, in order. */
  function FdMap(w: World, cs: seq<Conn>): map<int, Conn>
    decreases |cs|
  {
    if |cs| == 0 then map[]
    else FdMap(w, cs[..|cs| - 1])[w.fileno(cs[|cs| - 1]) := cs[|cs| - 1]]
  }

  /** Every descriptor of the list is a key of the map. */
  predicate Covered(xs: seq<int>, m: map<int, Conn>)
  {
    forall i :: 0 <= i < |xs| ==> xs[i] in m
  }

  lemma CoveredSub(xs: seq<int>, ys: seq<int>, m: map<int, Conn>)
    requires Covered(xs, m) && forall y :: y in ys ==> y in xs
    ensures Covered(ys, m)
  {
    forall i | 0 <= i < |ys| ensures ys[i] in m {
      var y := ys[i];
      assert y in ys;
      assert y in xs;
      var j :| 0 <= j < |xs| && xs[j] == y;
    }
  }

  /** What `select.select` returns for one list: the ready descriptors, in list order. */
  function Filter(xs: seq<int>, p: int -> bool): (r: seq<int>)
    ensures forall x :: x in r ==> x in xs && p(x)
    decreases |xs|
  {
    if |xs| == 0 then []
    else (if p(xs[0]) then [xs[0]] else []) + Filter(xs[1..], p)
  }

  // ----------------------------------------------------------- reconnect

  /** `xs.remove(d)` when `d` is in `xs` (its first occurrence goes); `xs` itself otherwise. */
  function Without(xs: seq<int>, d: int): (r: seq<int>)
    ensures forall x :: x in r ==> x in xs
    decreases |xs|
  {
    if |xs| == 0 then []
    else if xs[0] == d then xs[1..]
    else [xs[0]] + Without(xs[1..], d)
  }

  /** Each list with `d` removed. */
  function Removed(d: int, sets: seq<seq<int>>): (r: seq<seq<int>>)
    ensures |r| == |sets| && forall i :: 0 <= i < |sets| ==> r[i] == Without(sets[i], d)
    decreases |sets|
  {
    if |sets| == 0 then [] else Removed(d, sets[..|sets| - 1]) + [Without(sets[|sets| - 1], d)]
  }

  /**
   * `self._reconnect(c, *sets)`. As declared, the method has no `self`:
   * the reactor is bound to `fd` and the connection becomes the first
   * list, so the first `remove` is looked up on the connection and raises
   * `AttributeError` before anything is removed or reconnected. With
   * `self`, `list.remove` raises `ValueError` for a list that lacks the
   * descriptor. Corrected, the descriptor is removed where it is present
   * and `c.reconnect()` follows.
   */
  function ReconnectRun(w: World, mode: Mode, c: Conn, sets: seq<seq<int>>, t: seq<Event>)
    : (Outcome, seq<seq<int>>, seq<Event>)
  {
    if mode == Unbound then (Raised, sets, t)
    else if mode == SelfBound && exists i :: 0 <= i < |sets| && w.fileno(c) !in sets[i] then (Raised, sets, t)
    else
      var ev := Reconnected(c);
      (if w.raises(ev, t) then Raised else Normal, Removed(w.fileno(c), sets), t + [ev])
  }

  // --------------------------------------------------------- select pass

  /** The loop over the error set: each descriptor leaves the read and write results and its connection reconnects. */
  function ExceptPhase(w: World, mode: Mode, ex: seq<int>, m: map<int, Conn>, ins: seq<int>, outs: seq<int>,
                       t: seq<Event>): (Flow, seq<int>, seq<int>, seq<Event>)
    requires Covered(ex, m)
    decreases |ex|
  {
    if |ex| == 0 then (Go, ins, outs, t)
    else
      var r := ReconnectRun(w, mode, m[ex[0]], [ins, outs], t);
      if r.0 == Raised || |r.1| != 2 then (Raise, ins, outs, r.2)
      else ExceptPhase(w, mode, ex[1..], m, r.1[0], r.1[1], r.2)
  }

  /** The loop over the write results: a write that raises reconnects its connection and ends the pass. */
  function WritePhase(w: World, mode: Mode, outs: seq<int>, m: map<int, Conn>, ins: seq<int>, t: seq<Event>)
    : (Flow, seq<int>, seq<Event>)
    requires Covered(outs, m)
    decreases |outs|
  {
    if |outs| == 0 then (Go, ins, t)
    else
      var c := m[outs[0]];
      var ev := Wrote(c);
      if !w.raises(ev, t) then WritePhase(w, mode, outs[1..], m, ins, t + [ev])
      else
        var r := ReconnectRun(w, mode, c, [ins], t + [ev]);
        (if r.0 == Raised then Raise else Return, if |r.1| == 1 then r.1[0] else ins, r.2)
  }

  /** The loop over the read results: a read that raises reconnects its connection and the loop goes on. */
  function ReadPhase(w: World, ins: seq<int>, m: map<int, Conn>, t: seq<Event>): (Outcome, seq<Event>)
    requires Covered(ins, m)
    decreases |ins|
  {
    if |ins| == 0 then (Normal, t)
    else
      var c := m[ins[0]];
      var ev := ReadFrom(c);
      if !w.raises(ev, t) then ReadPhase(w, ins[1..], m, t + [ev])
      else
        var t' := t + [ev, Reconnected(c)];
        if w.raises(Reconnected(c), t + [ev]) then (Raised, t') else ReadPhase(w, ins[1..], m, t')
  }

  /** What is left of a pass once the probe has reported the three result lists. */
  function Dispatch(w: World, mode: Mode, m: map<int, Conn>, ins: seq<int>, outs: seq<int>, ex: seq<int>,
                    t: seq<Event>): (Outcome, seq<Event>)
    requires Covered(ins, m) && Covered(outs, m) && Covered(ex, m)
  {
    var (f1, ins1, outs1, t1) := ExceptPhase(w, mode, ex, m, ins, outs, t);
    if f1 != Go then (Raised, t1)
    else
      ExceptCovered(w, mode, ex, m, ins, outs, t);
      var (f2, ins2, t2) := WritePhase(w, mode, outs1, m, ins1, t1);
      if f2 == Raise then (Raised, t2)
      else if f2 == Return then (Normal, t2)
      else
        WriteCovered(w, mode, outs1, m, ins1, t1);
        ReadPhase(w, ins2, m, t2)
  }

  /** One `select` pass over the connections `cs` of a reactor whose factories are `hs`. */
  function Pass(w: World, mode: Mode, cs: seq<Conn>, hs: seq<Factory>, t: seq<Event>): (Outcome, seq<Event>)
  {
    if |hs| == 0 then (Normal, t)
    else
      var rd := Listed(w, cs, t, R);
      var wr := Listed(w, cs, t, W);
      var er := Listed(w, cs, t, E);
      var m := FdMap(w, cs);
      if rd == [] && wr == [] then (Normal, t)
      else
        var t1 := t + [Probed];
        ListedCovered(w, cs, t, R);
        ListedCovered(w, cs, t, W);
        ListedCovered(w, cs, t, E);
        match w.probe(t)
          case Failed =>
            if |rd| == 1 && mode == Corrected then
              var ev := Reconnected(m[rd[0]]);
              (if w.raises(ev, t1) then Raised else Normal, t1 + [ev])
            else (Raised, t1)
          case Ready(pr, pw, pe) =>
            CoveredSub(rd, Filter(rd, pr), m);
            CoveredSub(wr, Filter(wr, pw), m);
            CoveredSub(er, Filter(er, pe), m);
            Dispatch(w, mode, m, Filter(rd, pr), Filter(wr, pw), Filter(er, pe), t1)
  }

  // ------------------------------------------------- covering the lookups

  lemma {:induction false} ListedCovered(w: World, cs: seq<Conn>, t: seq<Event>, k: Kind)
    ensures Covered(Listed(w, cs, t, k), FdMap(w, cs))
    decreases |cs|
  {
    if |cs| > 0 {
      ListedCovered(w, cs[..|cs| - 1], t, k);
    }
  }

  lemma {:induction false} ExceptCovered(w: World, mode: Mode, ex: seq<int>, m: map<int, Conn>, ins: seq<int>,
                                         outs: seq<int>, t: seq<Event>)
    requires Covered(ex, m) && Covered(ins, m) && Covered(outs, m)
    ensures var r := ExceptPhase(w, mode, ex, m, ins, outs, t); Covered(r.1, m) && Covered(r.2, m)
    decreases |ex|
  {
    if |ex| > 0 {
      var r := ReconnectRun(w, mode, m[ex[0]], [ins, outs], t);
      if r.0 != Raised && |r.1| == 2 {
        if mode != Unbound {
          CoveredSub(ins, r.1[0], m);
          CoveredSub(outs, r.1[1], m);
        }
        ExceptCovered(w, mode, ex[1..], m, r.1[0], r.1[1], r.2);
      }
    }
  }

  lemma {:induction false} WriteCovered(w: World, mode: Mode, outs: seq<int>, m: map<int, Conn>, ins: seq<int>,
                                        t: seq<Event>)
    requires Covered(outs, m) && Covered(ins, m)
    ensures Covered(WritePhase(w, mode, outs, m, ins, t).1, m)
    decreases |outs|
  {
    if |outs| > 0 {
      var c := m[outs[0]];
      if !w.raises(Wrote(c), t) {
        WriteCovered(w, mode, outs[1..], m, ins, t + [Wrote(c)]);
      } else {
        CoveredSub(ins, Without(ins, w.fileno(c)), m);
      }
    }
  }

  // ----------------------------------------------------- plain properties

  /** A run of calls ends normally exactly when none of them raises, and then every call was made in order. */
  lemma {:induction false} CallsNormal(w: World, calls: seq<Event>, t: seq<Event>)
    ensures Calls(w, calls, t).0 == Normal <==> forall i :: 0 <= i < |calls| ==> !w.raises(calls[i], t + calls[..i])
    ensures Calls(w, calls, t).0 == Normal ==> Calls(w, calls, t).1 == t + calls
    decreases |calls|
  {
    if |calls| > 0 {
      var t1 := t + [calls[0]];
      var rest := calls[1..];
      CallsNormal(w, rest, t1);
      assert t + calls[..0] == t;
      forall i | 0 <= i < |rest| ensures t1 + rest[..i] == t + calls[..i + 1] && rest[i] == calls[i + 1] {
        assert calls[..i + 1] == [calls[0]] + rest[..i];
      }
      assert t1 + rest == t + calls;
      if forall i :: 0 <= i < |calls| ==> !w.raises(calls[i], t + calls[..i]) {
        forall i | 0 <= i < |rest| ensures !w.raises(rest[i], t1 + rest[..i]) {
          assert !w.raises(calls[i + 1], t + calls[..i + 1]);
        }
      }
      if Calls(w, calls, t).0 == Normal {
        forall i | 0 <= i < |calls| ensures !w.raises(calls[i], t + calls[..i]) {
          if i > 0 {
            assert !w.raises(rest[i - 1], t1 + rest[..i - 1]);
          }
        }
      }
    }
  }

  /** A run of calls that raises stops right after the first call that raises. */
  lemma {:induction false} CallsRaised(w: World, calls: seq<Event>, t: seq<Event>) returns (k: nat)
    requires Calls(w, calls, t).0 == Raised
    ensures k < |calls| && Calls(w, calls, t).1 == t + calls[..k + 1]
    ensures w.raises(calls[k], t + calls[..k])
    ensures forall i :: 0 <= i < k ==> !w.raises(calls[i], t + calls[..i])
    decreases |calls|
  {
    if w.raises(calls[0], t) {
      k := 0;
      assert calls[..1] == [calls[0]];
      assert t + calls[..0] == t;
    } else {
      var t1 := t + [calls[0]];
      var rest := calls[1..];
      var k' := CallsRaised(w, rest, t1);
      k := k' + 1;
      HistoryShift(t, calls, k + 1);
      HistoryShift(t, calls, k);
      assert calls[k] == rest[k'];
      forall i | 0 <= i < k ensures !w.raises(calls[i], t + calls[..i]) {
        if i > 0 {
          HistoryShift(t, calls, i);
          assert calls[i] == rest[i - 1];
        } else {
          assert t + calls[..0] == t;
        }
      }
    }
  }

  /** The calls before the `j`-th, seen from just after the first call. */
  lemma HistoryShift(t: seq<Event>, calls: seq<Event>, j: nat)
    requires 1 <= j <= |calls|
    ensures t + calls[..j] == (t + [calls[0]]) + calls[1..][..j - 1]
  {
    assert calls[..j] == [calls[0]] + calls[1..][..j - 1];
  }

  /** `is_ready` is false without factories and otherwise true exactly when each factory is ready. */
  lemma {:induction false} AllReadyIff(w: World, hs: seq<Factory>, t: seq<Event>)
    ensures AllReady(w, hs, t) <==> |hs| > 0 && forall i :: 0 <= i < |hs| ==> w.ready(hs[i], t)
  {
    ReadyFromIff(w, hs, t);
  }

  lemma {:induction false} ReadyFromIff(w: World, hs: seq<Factory>, t: seq<Event>)
    ensures ReadyFrom(w, hs, t) <==> forall i :: 0 <= i < |hs| ==> w.ready(hs[i], t)
    decreases |hs|
  {
    if |hs| > 0 {
      ReadyFromIff(w, hs[1..], t);
      assert forall i :: 1 <= i < |hs| ==> hs[1..][i - 1] == hs[i];
    }
  }

  // ------------------------------------------------------ fd_map and lists

  /** Every key of `fd_map` is the descriptor of the connection it maps to. */
  predicate Keyed(w: World, m: map<int, Conn>)
  {
    forall x :: x in m ==> w.fileno(m[x]) == x
  }

  /** No two connections share a descriptor. */
  predicate UniqueFilenos(w: World, cs: seq<Conn>)
  {
    forall i, j :: 0 <= i < j < |cs| ==> w.fileno(cs[i]) != w.fileno(cs[j])
  }

  /**
   * `fd_map` has a key for exactly the descriptors of the connections, and
   * maps it to the last connection reporting that descriptor.
   */
  lemma {:induction false} FdMapLastWins(w: World, cs: seq<Conn>, d: int) returns (i: nat)
    requires d in FdMap(w, cs)
    ensures i < |cs| && FdMap(w, cs)[d] == cs[i] && w.fileno(cs[i]) == d
    ensures forall j :: i < j < |cs| ==> w.fileno(cs[j]) != d
    decreases |cs|
  {
    var n := |cs| - 1;
    if w.fileno(cs[n]) == d {
      i := n;
    } else {
      i := FdMapLastWins(w, cs[..n], d);
    }
  }

  lemma {:induction false} FdMapKeys(w: World, cs: seq<Conn>, d: int)
    ensures d in FdMap(w, cs) <==> exists i :: 0 <= i < |cs| && w.fileno(cs[i]) == d
    decreases |cs|
  {
    if |cs| > 0 {
      var n := |cs| - 1;
      FdMapKeys(w, cs[..n], d);
      if exists i :: 0 <= i < |cs| && w.fileno(cs[i]) == d {
        var i :| 0 <= i < |cs| && w.fileno(cs[i]) == d;
        if i < n {
          assert cs[..n][i] == cs[i];
        }
      }
      if exists i :: 0 <= i < n && w.fileno(cs[..n][i]) == d {
        var i :| 0 <= i < n && w.fileno(cs[..n][i]) == d;
        assert cs[i] == cs[..n][i];
      }
    }
  }

  lemma FdMapKeyed(w: World, cs: seq<Conn>)
    ensures Keyed(w, FdMap(w, cs))
  {
    forall x | x in FdMap(w, cs) ensures w.fileno(FdMap(w, cs)[x]) == x {
      var i := FdMapLastWins(w, cs, x);
    }
  }

  /** With unique descriptors, each list holds a descriptor at most once. */
  lemma {:induction false} ListedDistinct(w: World, cs: seq<Conn>, t: seq<Event>, k: Kind)
    requires UniqueFilenos(w, cs)
    ensures Distinct(Listed(w, cs, t, k))
    ensures forall x :: x in Listed(w, cs, t, k) ==> exists i :: 0 <= i < |cs| && w.fileno(cs[i]) == x
    decreases |cs|
  {
    if |cs| > 0 {
      var n := |cs| - 1;
      var init := cs[..n];
      assert UniqueFilenos(w, init) by {
        forall i, j | 0 <= i < j < n ensures w.fileno(init[i]) != w.fileno(init[j]) {
          assert init[i] == cs[i] && init[j] == cs[j];
        }
      }
      ListedDistinct(w, init, t, k);
      var l := Listed(w, init, t, k);
      forall x | x in l ensures x != w.fileno(cs[n]) {
        var i :| 0 <= i < n && w.fileno(init[i]) == x;
        assert init[i] == cs[i];
      }
      var full := Listed(w, cs, t, k);
      forall i, j | 0 <= i < j < |full| ensures full[i] != full[j] {
        assert full[i] == l[i] && l[i] in l;
        if j < |l| {
          assert full[j] == l[j];
        }
      }
      forall x | x in Listed(w, cs, t, k) ensures exists i :: 0 <= i < |cs| && w.fileno(cs[i]) == x {
        if x in l {
          var i :| 0 <= i < n && w.fileno(init[i]) == x;
          assert init[i] == cs[i];
        } else {
          assert w.fileno(cs[n]) == x;
        }
      }
    }
  }

  lemma {:induction false} FilterDistinct(xs: seq<int>, p: int -> bool)
    requires Distinct(xs)
    ensures Distinct(Filter(xs, p))
    decreases |xs|
  {
    if |xs| > 0 {
      FilterDistinct(xs[1..], p);
      assert xs[0] !in xs[1..] by {
        forall j | 0 <= j < |xs| - 1 ensures xs[1..][j] != xs[0] {
          assert xs[1..][j] == xs[j + 1];
        }
      }
    }
  }

  /** Removing a descriptor from a list that holds it at most once leaves it out altogether. */
  lemma {:induction false} WithoutDistinct(xs: seq<int>, d: int)
    requires Distinct(xs)
    ensures Distinct(Without(xs, d)) && d !in Without(xs, d)
    decreases |xs|
  {
    if |xs| > 0 {
      var rest := xs[1..];
      assert Distinct(rest) by {
        forall i, j | 0 <= i < j < |rest| ensures rest[i] != rest[j] {
          assert rest[i] == xs[i + 1] && rest[j] == xs[j + 1];
        }
      }
      assert xs[0] !in rest by {
        forall j | 0 <= j < |rest| ensures rest[j] != xs[0] {
          assert rest[j] == xs[j + 1];
        }
      }
      if xs[0] != d {
        WithoutDistinct(rest, d);
      }
    }
  }

  // ------------------------------------------------------- pass properties

  /** `t'` is `t` with more calls after it. */
  predicate Extends(t: seq<Event>, t': seq<Event>)
  {
    |t| <= |t'| && t'[..|t|] == t
  }

  lemma ExtendsTrans(a: seq<Event>, b: seq<Event>, c: seq<Event>)
    requires Extends(a, b) && Extends(b, c)
    ensures Extends(a, c) && forall k :: 0 <= k <= |b| ==> c[..k] == b[..k]
  {
    assert c[..|a|] == c[..|b|][..|a|];
  }

  /**
   * The error-set loop only reconnects; with the corrected `_reconnect`,
   * once it has gone through, no descriptor of the error set is left in the
   * read or write results.
   */
  lemma {:induction false} ExceptRemoves(w: World, ex: seq<int>, m: map<int, Conn>, ins: seq<int>, outs: seq<int>,
                                         t: seq<Event>)
    requires Covered(ex, m) && Keyed(w, m) && Distinct(ins) && Distinct(outs)
    ensures var r := ExceptPhase(w, Corrected, ex, m, ins, outs, t);
            Extends(t, r.3) && (forall k :: |t| <= k < |r.3| ==> r.3[k].Reconnected?)
            && (r.0 == Go ==> Distinct(r.1) && Distinct(r.2)
                              && (forall x :: x in r.1 ==> x in ins) && (forall x :: x in r.2 ==> x in outs)
                              && forall x :: x in ex ==> x !in r.1 && x !in r.2)
    decreases |ex|
  {
    if |ex| > 0 {
      var d := ex[0];
      var c := m[d];
      assert w.fileno(c) == d;
      var rr := ReconnectRun(w, Corrected, c, [ins, outs], t);
      WithoutDistinct(ins, d);
      WithoutDistinct(outs, d);
      if rr.0 != Raised {
        ExceptRemoves(w, ex[1..], m, rr.1[0], rr.1[1], rr.2);
        var r := ExceptPhase(w, Corrected, ex[1..], m, rr.1[0], rr.1[1], rr.2);
        ExtendsTrans(t, rr.2, r.3);
        forall x | x in ex ensures x in ex[1..] || x == d {
          var i :| 0 <= i < |ex| && ex[i] == x;
          if i > 0 {
            assert ex[1..][i - 1] == x;
          }
        }
      }
    }
  }

  /**
   * The write loop makes writes to descriptors of its list and at most one
   * reconnect; a write that raises is followed by nothing but the reconnect
   * of its connection (always made by the corrected `_reconnect`); when the
   * loop goes through, no write raised.
   */
  lemma {:induction false} WriteEvents(w: World, mode: Mode, outs: seq<int>, m: map<int, Conn>, ins: seq<int>,
                                       t: seq<Event>)
    requires Covered(outs, m) && Keyed(w, m)
    ensures var r := WritePhase(w, mode, outs, m, ins, t);
            Extends(t, r.2)
            && (forall k :: |t| <= k < |r.2| ==> r.2[k].Wrote? || r.2[k].Reconnected?)
            && (forall k :: |t| <= k < |r.2| && r.2[k].Wrote? ==> w.fileno(r.2[k].conn) in outs)
            && (forall k :: |t| <= k < |r.2| && r.2[k].Wrote? && w.raises(r.2[k], r.2[..k]) ==>
                  r.2[k + 1..] <= [Reconnected(r.2[k].conn)]
                  && (mode == Corrected ==> r.2[k + 1..] == [Reconnected(r.2[k].conn)]))
            && (r.0 == Go ==> r.1 == ins && forall k :: |t| <= k < |r.2| ==> r.2[k].Wrote? && !w.raises(r.2[k], r.2[..k]))
    decreases |outs|
  {
    if |outs| > 0 {
      var c := m[outs[0]];
      var t1 := t + [Wrote(c)];
      assert w.fileno(c) == outs[0];
      if !w.raises(Wrote(c), t) {
        WriteEvents(w, mode, outs[1..], m, ins, t1);
        var r := WritePhase(w, mode, outs[1..], m, ins, t1);
        ExtendsTrans(t, t1, r.2);
        assert r.2[|t|] == t1[|t|] == Wrote(c);
        assert r.2[..|t|] == t;
        forall k | |t| < k < |r.2| && r.2[k].Wrote? ensures w.fileno(r.2[k].conn) in outs {
          assert w.fileno(r.2[k].conn) in outs[1..];
        }
      } else {
        var r := ReconnectRun(w, mode, c, [ins], t1);
        assert r.2 == t1 || r.2 == t1 + [Reconnected(c)];
        assert mode == Corrected ==> r.2 == t1 + [Reconnected(c)];
        assert r.2[|t|] == Wrote(c) && r.2[..|t|] == t;
      }
    }
  }

  /** The read loop makes reads from descriptors of its list and reconnects, nothing else. */
  lemma {:induction false} ReadEvents(w: World, ins: seq<int>, m: map<int, Conn>, t: seq<Event>)
    requires Covered(ins, m) && Keyed(w, m)
    ensures var r := ReadPhase(w, ins, m, t);
            Extends(t, r.1)
            && (forall k :: |t| <= k < |r.1| ==> r.1[k].ReadFrom? || r.1[k].Reconnected?)
            && (forall k :: |t| <= k < |r.1| && r.1[k].ReadFrom? ==> w.fileno(r.1[k].conn) in ins)
    decreases |ins|
  {
    if |ins| > 0 {
      var c := m[ins[0]];
      var ev := ReadFrom(c);
      var t' := if w.raises(ev, t) then t + [ev, Reconnected(c)] else t + [ev];
      assert w.fileno(c) == ins[0];
      if !w.raises(ev, t) || !w.raises(Reconnected(c), t + [ev]) {
        ReadEvents(w, ins[1..], m, t');
        var r := ReadPhase(w, ins[1..], m, t');
        ExtendsTrans(t, t', r.1);
        forall k | |t| <= k < |r.1| ensures r.1[k].ReadFrom? || r.1[k].Reconnected?
          ensures r.1[k].ReadFrom? ==> w.fileno(r.1[k].conn) in ins
        {
          if k < |t'| {
            assert r.1[k] == t'[k];
          } else if r.1[k].ReadFrom? {
            assert w.fileno(r.1[k].conn) in ins[1..];
          }
        }
      }
    }
  }

  /**
   * A read that raises is followed by the reconnect of its connection, and
   * does not stop the loop: if it ends normally, every descriptor of its
   * list was read.
   */
  lemma ReadsAll(w: World, ins: seq<int>, m: map<int, Conn>, t: seq<Event>)
    requires Covered(ins, m)
    ensures var r := ReadPhase(w, ins, m, t);
            Extends(t, r.1)
            && (forall k :: |t| <= k < |r.1| && r.1[k].ReadFrom? && w.raises(r.1[k], r.1[..k]) ==>
                  k + 1 < |r.1| && r.1[k + 1] == Reconnected(r.1[k].conn))
            && (r.0 == Normal ==> forall i :: 0 <= i < |ins| ==> ReadFrom(m[ins[i]]) in r.1[|t|..])
  {
    ReadFailureReconnects(w, ins, m, t);
    ReadsEach(w, ins, m, t);
  }

  /** If the read loop ends normally, every descriptor of its list was read. */
  lemma {:induction false} ReadsEach(w: World, ins: seq<int>, m: map<int, Conn>, t: seq<Event>)
    requires Covered(ins, m)
    ensures var r := ReadPhase(w, ins, m, t);
            Extends(t, r.1) && (r.0 == Normal ==> forall i :: 0 <= i < |ins| ==> ReadFrom(m[ins[i]]) in r.1[|t|..])
    decreases |ins|
  {
    if |ins| > 0 {
      var c := m[ins[0]];
      var ev := ReadFrom(c);
      var t' := if w.raises(ev, t) then t + [ev, Reconnected(c)] else t + [ev];
      if !w.raises(ev, t) || !w.raises(Reconnected(c), t + [ev]) {
        ReadsEach(w, ins[1..], m, t');
        var r := ReadPhase(w, ins[1..], m, t');
        ExtendsTrans(t, t', r.1);
        if r.0 == Normal {
          assert r.1[..|t'|] == t';
          assert r.1[|t|] == ev;
          forall i | 1 <= i < |ins| ensures ReadFrom(m[ins[i]]) in r.1[|t|..] {
            assert ins[i] == ins[1..][i - 1];
            var k :| 0 <= k < |r.1[|t'|..]| && r.1[|t'|..][k] == ReadFrom(m[ins[i]]);
            assert r.1[|t|..][k + |t'| - |t|] == ReadFrom(m[ins[i]]);
          }
        }
      }
    }
  }

  /** In the read loop, a read that raises is followed by the reconnect of its connection. */
  lemma {:induction false} ReadFailureReconnects(w: World, ins: seq<int>, m: map<int, Conn>, t: seq<Event>)
    requires Covered(ins, m)
    ensures var r := ReadPhase(w, ins, m, t);
            Extends(t, r.1)
            && forall k :: |t| <= k < |r.1| && r.1[k].ReadFrom? && w.raises(r.1[k], r.1[..k]) ==>
                 k + 1 < |r.1| && r.1[k + 1] == Reconnected(r.1[k].conn)
    decreases |ins|
  {
    if |ins| > 0 {
      var c := m[ins[0]];
      var ev := ReadFrom(c);
      var t' := if w.raises(ev, t) then t + [ev, Reconnected(c)] else t + [ev];
      if !w.raises(ev, t) || !w.raises(Reconnected(c), t + [ev]) {
        ReadFailureReconnects(w, ins[1..], m, t');
        var r := ReadPhase(w, ins[1..], m, t');
        ExtendsTrans(t, t', r.1);
        forall k | |t| <= k < |t'| && r.1[k].ReadFrom? && w.raises(r.1[k], r.1[..k])
          ensures k + 1 < |r.1| && r.1[k + 1] == Reconnected(r.1[k].conn)
        {
          assert r.1[k] == t'[k] && r.1[..k] == t'[..k];
        }
      }
    }
  }

  /**
   * No connection whose descriptor is in the error set gets a write or a
   * read in the rest of the pass, provided the result lists hold each
   * descriptor at most once.
   */
  lemma ErroredNotDispatched(w: World, m: map<int, Conn>, ins: seq<int>, outs: seq<int>, ex: seq<int>, t: seq<Event>)
    requires Covered(ins, m) && Covered(outs, m) && Covered(ex, m) && Keyed(w, m)
    requires Distinct(ins) && Distinct(outs)
    ensures Untouched(w, t, Dispatch(w, Corrected, m, ins, outs, ex, t).1, ex)
  {
    ExceptRemoves(w, ex, m, ins, outs, t);
    var (f1, ins1, outs1, t1) := ExceptPhase(w, Corrected, ex, m, ins, outs, t);
    if f1 == Go {
      ExceptCovered(w, Corrected, ex, m, ins, outs, t);
      WriteEvents(w, Corrected, outs1, m, ins1, t1);
      var (f2, ins2, t2) := WritePhase(w, Corrected, outs1, m, ins1, t1);
      ExtendsTrans(t, t1, t2);
      if f2 == Go {
        WriteCovered(w, Corrected, outs1, m, ins1, t1);
        ReadEvents(w, ins2, m, t2);
        var r := ReadPhase(w, ins2, m, t2);
        ExtendsTrans(t, t2, r.1);
        forall k | |t| <= k < |r.1| && (r.1[k].Wrote? || r.1[k].ReadFrom?) ensures w.fileno(r.1[k].conn) !in ex {
          if |t1| <= k < |t2| {
            assert r.1[k] == t2[k];
          }
        }
      } else {
        assert forall k :: |t| <= k < |t2| && (t2[k].Wrote? || t2[k].ReadFrom?) ==> w.fileno(t2[k].conn) !in ex;
      }
    }
  }

  /**
   * A write that raises ends the pass: only the reconnect of its connection
   * follows it, so no later write and no read; and no read precedes it.
   */
  lemma WriteFailureEndsPass(w: World, m: map<int, Conn>, ins: seq<int>, outs: seq<int>, ex: seq<int>, t: seq<Event>)
    requires Covered(ins, m) && Covered(outs, m) && Covered(ex, m) && Keyed(w, m)
    requires Distinct(ins) && Distinct(outs)
    ensures var r := Dispatch(w, Corrected, m, ins, outs, ex, t);
            Extends(t, r.1)
            && (forall k :: |t| <= k < |r.1| && r.1[k].Wrote? && w.raises(r.1[k], r.1[..k]) ==>
                  r.1[k + 1..] == [Reconnected(r.1[k].conn)])
            && ((exists k :: |t| <= k < |r.1| && r.1[k].Wrote? && w.raises(r.1[k], r.1[..k])) ==>
                  forall k :: |t| <= k < |r.1| ==> !r.1[k].ReadFrom?)
  {
    WriteFailureLast(w, m, ins, outs, ex, t);
    WriteFailureNoRead(w, m, ins, outs, ex, t);
  }

  /** A write that raises in a pass is followed by the reconnect of its connection and nothing else. */
  lemma WriteFailureLast(w: World, m: map<int, Conn>, ins: seq<int>, outs: seq<int>, ex: seq<int>, t: seq<Event>)
    requires Covered(ins, m) && Covered(outs, m) && Covered(ex, m) && Keyed(w, m)
    requires Distinct(ins) && Distinct(outs)
    ensures var r := Dispatch(w, Corrected, m, ins, outs, ex, t);
            Extends(t, r.1)
            && forall k :: |t| <= k < |r.1| && r.1[k].Wrote? && w.raises(r.1[k], r.1[..k]) ==>
                 r.1[k + 1..] == [Reconnected(r.1[k].conn)]
  {
    ExceptRemoves(w, ex, m, ins, outs, t);
    var (f1, ins1, outs1, t1) := ExceptPhase(w, Corrected, ex, m, ins, outs, t);
    if f1 == Go {
      ExceptCovered(w, Corrected, ex, m, ins, outs, t);
      WriteEvents(w, Corrected, outs1, m, ins1, t1);
      var (f2, ins2, t2) := WritePhase(w, Corrected, outs1, m, ins1, t1);
      ExtendsTrans(t, t1, t2);
      if f2 == Go {
        WriteCovered(w, Corrected, outs1, m, ins1, t1);
        ReadEvents(w, ins2, m, t2);
        var r := ReadPhase(w, ins2, m, t2);
        ExtendsTrans(t, t2, r.1);
        forall k | |t| <= k < |r.1| && r.1[k].Wrote? ensures !w.raises(r.1[k], r.1[..k]) {
          assert k < |t2|;
          assert r.1[k] == t2[k] && r.1[..k] == t2[..k];
          assert k >= |t1|;
        }
      } else {
        forall k | |t| <= k < |t2| && t2[k].Wrote? && w.raises(t2[k], t2[..k])
          ensures t2[k + 1..] == [Reconnected(t2[k].conn)]
        {
          assert k >= |t1|;
        }
      }
    }
  }

  /** Once a write has raised in a pass, the pass holds no read at all. */
  lemma WriteFailureNoRead(w: World, m: map<int, Conn>, ins: seq<int>, outs: seq<int>, ex: seq<int>, t: seq<Event>)
    requires Covered(ins, m) && Covered(outs, m) && Covered(ex, m) && Keyed(w, m)
    requires Distinct(ins) && Distinct(outs)
    ensures var r := Dispatch(w, Corrected, m, ins, outs, ex, t);
            Extends(t, r.1)
            && ((exists k :: |t| <= k < |r.1| && r.1[k].Wrote? && w.raises(r.1[k], r.1[..k])) ==>
                  forall k :: |t| <= k < |r.1| ==> !r.1[k].ReadFrom?)
  {
    ExceptRemoves(w, ex, m, ins, outs, t);
    var (f1, ins1, outs1, t1) := ExceptPhase(w, Corrected, ex, m, ins, outs, t);
    if f1 == Go {
      ExceptCovered(w, Corrected, ex, m, ins, outs, t);
      WriteEvents(w, Corrected, outs1, m, ins1, t1);
      var (f2, ins2, t2) := WritePhase(w, Corrected, outs1, m, ins1, t1);
      ExtendsTrans(t, t1, t2);
      if f2 == Go {
        WriteCovered(w, Corrected, outs1, m, ins1, t1);
        ReadEvents(w, ins2, m, t2);
        var r := ReadPhase(w, ins2, m, t2);
        ExtendsTrans(t, t2, r.1);
        forall k | |t| <= k < |r.1| && r.1[k].Wrote? ensures !w.raises(r.1[k], r.1[..k]) {
          assert k < |t2|;
          assert r.1[k] == t2[k] && r.1[..k] == t2[..k];
          assert k >= |t1|;
        }
      } else {
        assert forall k :: |t| <= k < |t2| ==> !t2[k].ReadFrom?;
      }
    }
  }

  // ------------------------------------------------------------ scenarios

  /**
   * With no factory a pass makes no call at all; with nothing to read or
   * write it makes none either, and in particular never probes.
   */
  lemma PassIdle(w: World, mode: Mode, cs: seq<Conn>, hs: seq<Factory>, t: seq<Event>)
    requires |hs| == 0 || (Listed(w, cs, t, R) == [] && Listed(w, cs, t, W) == [])
    ensures Pass(w, mode, cs, hs, t) == (Normal, t)
  {
  }

  /**
   * A probe that fails with just one readable descriptor reconnects its
   * connection and the pass returns unless that reconnect raises; with any
   * other number of readable descriptors the pass raises, reconnecting
   * nothing.
   */
  lemma ProbeFailure(w: World, cs: seq<Conn>, hs: seq<Factory>, t: seq<Event>)
    requires |hs| > 0 && w.probe(t) == Failed
    requires Listed(w, cs, t, R) != [] || Listed(w, cs, t, W) != []
    ensures var rd := Listed(w, cs, t, R); var r := Pass(w, Corrected, cs, hs, t);
            if |rd| == 1 then
              exists i :: 0 <= i < |cs| && w.fileno(cs[i]) == rd[0] &&
                r == (if w.raises(Reconnected(cs[i]), t + [Probed]) then Raised else Normal, t + [Probed, Reconnected(cs[i])])
            else r == (Raised, t + [Probed])
  {
    var rd := Listed(w, cs, t, R);
    if |rd| == 1 {
      ListedCovered(w, cs, t, R);
      assert rd[0] in FdMap(w, cs);
      var i := FdMapLastWins(w, cs, rd[0]);
      var ev := Reconnected(cs[i]);
      assert Pass(w, Corrected, cs, hs, t) == (if w.raises(ev, t + [Probed]) then Raised else Normal, t + [Probed] + [ev]);
      assert t + [Probed] + [ev] == t + [Probed, ev];
    }
  }

  /** A pass in which exactly one connection is tracked and readable, and the probe fails: that connection is reconnected. */
  lemma ProbeFailureOne(w: World, c: Conn, hs: seq<Factory>, t: seq<Event>)
    requires |hs| > 0 && w.probe(t) == Failed && w.interest(c, t).read
    ensures Pass(w, Corrected, [c], hs, t)
            == (if w.raises(Reconnected(c), t + [Probed]) then Raised else Normal, t + [Probed, Reconnected(c)])
  {
    assert [c][..0] == [];
    assert Listed(w, [c], t, R) == [w.fileno(c)];
    assert FdMap(w, [c]) == map[w.fileno(c) := c];
    assert t + [Probed] + [Reconnected(c)] == t + [Probed, Reconnected(c)];
  }

  /** Two readable connections and a failing probe: the pass raises and reconnects neither. */
  lemma ProbeFailureTwo(w: World, mode: Mode, c1: Conn, c2: Conn, hs: seq<Factory>, t: seq<Event>)
    requires |hs| > 0 && w.probe(t) == Failed && w.interest(c1, t).read && w.interest(c2, t).read
    ensures Pass(w, mode, [c1, c2], hs, t) == (Raised, t + [Probed])
  {
    assert [c1, c2][..1] == [c1];
    assert [c1][..0] == [];
    assert Listed(w, [c1], t, R) == [w.fileno(c1)];
    assert Listed(w, [c1, c2], t, R) == [w.fileno(c1)] + [w.fileno(c2)];
  }

  /** Once the probe has answered, a pass is the dispatch of the ready descriptors it reported. */
  lemma PassDispatch(w: World, mode: Mode, cs: seq<Conn>, hs: seq<Factory>, t: seq<Event>,
                     pr: int -> bool, pw: int -> bool, pe: int -> bool)
    requires |hs| > 0 && w.probe(t) == Ready(pr, pw, pe)
    requires Listed(w, cs, t, R) != [] || Listed(w, cs, t, W) != []
    ensures var m := FdMap(w, cs);
            var ins, outs, ex := Filter(Listed(w, cs, t, R), pr), Filter(Listed(w, cs, t, W), pw), Filter(Listed(w, cs, t, E), pe);
            Covered(ins, m) && Covered(outs, m) && Covered(ex, m)
            && Pass(w, mode, cs, hs, t) == Dispatch(w, mode, m, ins, outs, ex, t + [Probed])
  {
    var m := FdMap(w, cs);
    ListedCovered(w, cs, t, R);
    ListedCovered(w, cs, t, W);
    ListedCovered(w, cs, t, E);
    CoveredSub(Listed(w, cs, t, R), Filter(Listed(w, cs, t, R), pr), m);
    CoveredSub(Listed(w, cs, t, W), Filter(Listed(w, cs, t, W), pw), m);
    CoveredSub(Listed(w, cs, t, E), Filter(Listed(w, cs, t, E), pe), m);
  }

  /**
   * With unique descriptors, no connection the probe puts in the error set
   * gets a write or a read in that pass.
   */
  lemma PassErroredNotDispatched(w: World, cs: seq<Conn>, hs: seq<Factory>, t: seq<Event>,
                                 pr: int -> bool, pw: int -> bool, pe: int -> bool)
    requires UniqueFilenos(w, cs) && w.probe(t) == Ready(pr, pw, pe)
    ensures Untouched(w, t, Pass(w, Corrected, cs, hs, t).1, Filter(Listed(w, cs, t, E), pe))
  {
    var rd, wr, er := Listed(w, cs, t, R), Listed(w, cs, t, W), Listed(w, cs, t, E);
    if |hs| > 0 && (rd != [] || wr != []) {
      PassDispatch(w, Corrected, cs, hs, t, pr, pw, pe);
      var m := FdMap(w, cs);
      ListedDistinct(w, cs, t, R);
      ListedDistinct(w, cs, t, W);
      FilterDistinct(rd, pr);
      FilterDistinct(wr, pw);
      FdMapKeyed(w, cs);
      var t1 := t + [Probed];
      ErroredNotDispatched(w, m, Filter(rd, pr), Filter(wr, pw), Filter(er, pe), t1);
      UntouchedProbe(w, t, Dispatch(w, Corrected, m, Filter(rd, pr), Filter(wr, pw), Filter(er, pe), t1).1, Filter(er, pe));
    }
  }

  /** After `t`, no connection whose descriptor is in `ex` gets a write or a read. */
  predicate Untouched(w: World, t: seq<Event>, t': seq<Event>, ex: seq<int>)
  {
    Extends(t, t') && forall k :: |t| <= k < |t'| && (t'[k].Wrote? || t'[k].ReadFrom?) ==> w.fileno(t'[k].conn) !in ex
  }

  lemma UntouchedProbe(w: World, t: seq<Event>, t': seq<Event>, ex: seq<int>)
    requires Untouched(w, t + [Probed], t', ex)
    ensures Untouched(w, t, t', ex)
  {
    assert t'[..|t|] == t'[..|t| + 1][..|t|];
  }

  // ------------------------------------------------------------- findings

  /**
   * As written, a failed probe always makes the pass raise without any
   * reconnect: with one readable descriptor, `readable[0].reconnect()` is
   * called on the descriptor number, which has no such method.
   */
  lemma ProbeFailureAsWritten(w: World, mode: Mode, cs: seq<Conn>, hs: seq<Factory>, t: seq<Event>)
    requires mode != Corrected && |hs| > 0 && w.probe(t) == Failed
    requires Listed(w, cs, t, R) != [] || Listed(w, cs, t, W) != []
    ensures Pass(w, mode, cs, hs, t) == (Raised, t + [Probed])
  {
  }

  /**
   * With `_reconnect` as declared, a pass in which the probe reports an
   * error-set descriptor raises before any reconnect, write or read.
   */
  lemma UnboundErrorRaises(w: World, m: map<int, Conn>, ins: seq<int>, outs: seq<int>, ex: seq<int>, t: seq<Event>)
    requires Covered(ins, m) && Covered(outs, m) && Covered(ex, m) && |ex| > 0
    ensures Dispatch(w, Unbound, m, ins, outs, ex, t) == (Raised, t)
  {
  }

  /** With `_reconnect` as declared, a write that raises makes the whole pass raise, reconnecting nothing. */
  lemma UnboundWriteRaises(w: World, m: map<int, Conn>, ins: seq<int>, outs: seq<int>, t: seq<Event>)
    requires Covered(ins, m) && Covered(outs, m) && |outs| > 0 && w.raises(Wrote(m[outs[0]]), t)
    ensures Dispatch(w, Unbound, m, ins, outs, [], t) == (Raised, t + [Wrote(m[outs[0]])])
  {
  }

  /**
   * With `self` added but `list.remove` kept, an error-set descriptor that
   * is not also among the read results makes the pass raise `ValueError`
   * before anything is reconnected.
   */
  lemma SelfBoundAbsentRaises(w: World, m: map<int, Conn>, ins: seq<int>, outs: seq<int>, ex: seq<int>, t: seq<Event>)
    requires Covered(ins, m) && Covered(outs, m) && Covered(ex, m) && Keyed(w, m)
    requires |ex| > 0 && ex[0] !in ins
    ensures Dispatch(w, SelfBound, m, ins, outs, ex, t) == (Raised, t)
  {
    assert ex[0] in m;
    assert w.fileno(m[ex[0]]) == ex[0];
    var sets := [ins, outs];
    assert w.fileno(m[ex[0]]) !in sets[0];
  }

  /**
   * The corrected `_reconnect` reconnects the first error-set connection
   * whatever lists hold its descriptor, and the pass goes on unless that
   * reconnect raises.
   */
  lemma CorrectedErrorReconnects(w: World, m: map<int, Conn>, ins: seq<int>, outs: seq<int>, ex: seq<int>, t: seq<Event>)
    requires Covered(ins, m) && Covered(outs, m) && Covered(ex, m) && |ex| > 0
    ensures var r := Dispatch(w, Corrected, m, ins, outs, ex, t);
            |r.1| > |t| && r.1[|t|] == Reconnected(m[ex[0]])
  {
    var rr := ReconnectRun(w, Corrected, m[ex[0]], [ins, outs], t);
    if rr.0 != Raised {
      ExceptExtends(w, Corrected, ex[1..], m, rr.1[0], rr.1[1], rr.2);
    }
    var e := ExceptPhase(w, Corrected, ex, m, ins, outs, t);
    assert Extends(rr.2, e.3);
    if e.0 == Go {
      ExceptCovered(w, Corrected, ex, m, ins, outs, t);
      WriteExtends(w, Corrected, e.2, m, e.1, e.3);
      var wp := WritePhase(w, Corrected, e.2, m, e.1, e.3);
      ExtendsTrans(rr.2, e.3, wp.2);
      if wp.0 == Go {
        WriteCovered(w, Corrected, e.2, m, e.1, e.3);
        ReadExtends(w, wp.1, m, wp.2);
        ExtendsTrans(rr.2, wp.2, ReadPhase(w, wp.1, m, wp.2).1);
      }
    }
  }

  lemma {:induction false} ExceptExtends(w: World, mode: Mode, ex: seq<int>, m: map<int, Conn>, ins: seq<int>,
                                         outs: seq<int>, t: seq<Event>)
    requires Covered(ex, m)
    ensures Extends(t, ExceptPhase(w, mode, ex, m, ins, outs, t).3)
    decreases |ex|
  {
    if |ex| > 0 {
      var r := ReconnectRun(w, mode, m[ex[0]], [ins, outs], t);
      if r.0 != Raised && |r.1| == 2 {
        ExceptExtends(w, mode, ex[1..], m, r.1[0], r.1[1], r.2);
        ExtendsTrans(t, r.2, ExceptPhase(w, mode, ex[1..], m, r.1[0], r.1[1], r.2).3);
      }
    }
  }

  lemma {:induction false} WriteExtends(w: World, mode: Mode, outs: seq<int>, m: map<int, Conn>, ins: seq<int>,
                                        t: seq<Event>)
    requires Covered(outs, m)
    ensures Extends(t, WritePhase(w, mode, outs, m, ins, t).2)
    decreases |outs|
  {
    if |outs| > 0 {
      var t1 := t + [Wrote(m[outs[0]])];
      if !w.raises(Wrote(m[outs[0]]), t) {
        WriteExtends(w, mode, outs[1..], m, ins, t1);
        ExtendsTrans(t, t1, WritePhase(w, mode, outs[1..], m, ins, t1).2);
      }
    }
  }

  lemma {:induction false} ReadExtends(w: World, ins: seq<int>, m: map<int, Conn>, t: seq<Event>)
    requires Covered(ins, m)
    ensures Extends(t, ReadPhase(w, ins, m, t).1)
    decreases |ins|
  {
    if |ins| > 0 {
      var c := m[ins[0]];
      var ev := ReadFrom(c);
      var t' := if w.raises(ev, t) then t + [ev, Reconnected(c)] else t + [ev];
      if !w.raises(ev, t) || !w.raises(Reconnected(c), t + [ev]) {
        ReadExtends(w, ins[1..], m, t');
        ExtendsTrans(t, t', ReadPhase(w, ins[1..], m, t').1);
      }
    }
  }

  // ------------------------------------------------------------- reactor

  /** `_Reactor`: the tracked connections `_fds`, their factories `handlers`, and the calls made so far. */
  class Reactor {
    var fds: seq<Conn>
    var handlers: seq<Factory>
    var trace: seq<Event>

    /** `_Reactor.__init__`. */
    constructor ()
      ensures fds == [] && handlers == [] && trace == []
    {
      fds := [];
      handlers := [];
      trace := [];
    }

    /**
     * `connect(factory, host, port, secure)`: build a connection, track it,
     * connect it, then track the factory. The host, port and TLS flag only
     * reach `build_protocol`, which the world decides.
     */
    method Connect(w: World, f: Factory) returns (out: Outcome)
      modifies this
      ensures var t0 := old(trace); var c := w.build(f, t0);
              if w.raises(Built(f), t0) then
                out == Raised && trace == t0 + [Built(f)] && fds == old(fds) && handlers == old(handlers)
              else if w.raises(Connected(c), t0 + [Built(f)]) then
                out == Raised && trace == t0 + [Built(f), Connected(c)]
                && fds == old(fds) + [c] && handlers == old(handlers)
              else
                out == Normal && trace == t0 + [Built(f), Connected(c)]
                && fds == old(fds) + [c] && handlers == old(handlers) + [f]
    {
      var c := w.build(f, trace);
      var raised := w.raises(Built(f), trace);
      trace := trace + [Built(f)];
      if raised {
        return Raised;
      }
      fds := fds + [c];
      raised := w.raises(Connected(c), trace);
      trace := trace + [Connected(c)];
      if raised {
        return Raised;
      }
      handlers := handlers + [f];
      out := Normal;
    }

    /** `stop`: stop each tracked connection in order, then forget them all. */
    method Stop(w: World) returns (out: Outcome)
      modifies this
      ensures (out, trace) == Calls(w, StopCalls(old(fds)), old(trace))
      ensures out == Normal ==> fds == [] && handlers == []
      ensures out == Raised ==> fds == old(fds) && handlers == old(handlers)
    {
      var calls := StopCalls(fds);
      var i := 0;
      while i < |fds|
        invariant 0 <= i <= |fds| && fds == old(fds) && handlers == old(handlers)
        invariant Calls(w, calls, old(trace)) == Calls(w, calls[i..], trace)
      {
        var c := fds[i];
        var raised := w.raises(Stopped(c), trace);
        assert calls[i..][1..] == calls[i + 1..];
        trace := trace + [Stopped(c)];
        if raised {
          return Raised;
        }
        i := i + 1;
      }
      fds := [];
      handlers := [];
      out := Normal;
    }

    /** `is_ready`: false without factories, else whether every factory is ready. */
    method IsReady(w: World) returns (r: bool)
      ensures r == AllReady(w, handlers, trace)
    {
      if |handlers| == 0 {
        return false;
      }
      var i := 0;
      while i < |handlers|
        invariant 0 <= i <= |handlers|
        invariant ReadyFrom(w, handlers, trace) == ReadyFrom(w, handlers[i..], trace)
      {
        assert handlers[i..][1..] == handlers[i + 1..];
        if !w.ready(handlers[i], trace) {
          return false;
        }
        i := i + 1;
      }
      r := true;
    }

    /** `tick`: tick each factory in order, then run one `select` pass. */
    method Tick(w: World) returns (out: Outcome)
      modifies this
      ensures fds == old(fds) && handlers == old(handlers)
      ensures var (o, t) := Calls(w, TickCalls(old(handlers)), old(trace));
              (out, trace) == if o == Raised then (o, t) else Pass(w, Corrected, fds, handlers, t)
    {
      var calls := TickCalls(handlers);
      var i := 0;
      while i < |handlers|
        invariant 0 <= i <= |handlers| && fds == old(fds) && handlers == old(handlers)
        invariant Calls(w, calls, old(trace)) == Calls(w, calls[i..], trace)
      {
        var f := handlers[i];
        var raised := w.raises(Ticked(f), trace);
        assert calls[i..][1..] == calls[i + 1..];
        trace := trace + [Ticked(f)];
        if raised {
          return Raised;
        }
        i := i + 1;
      }
      out := Select(w);
    }

    /** `select`: one poll-and-dispatch pass, with the corrected `_reconnect`. */
    method Select(w: World) returns (out: Outcome)
      modifies this`trace
      ensures (out, trace) == Pass(w, Corrected, fds, handlers, old(trace))
    {
      if |handlers| == 0 {
        return Normal;
      }
      var readable, writeable, errorable, fdMap := Classify(w);
      if readable == [] && writeable == [] {
        return Normal;
      }
      ListedCovered(w, fds, trace, R);
      ListedCovered(w, fds, trace, W);
      ListedCovered(w, fds, trace, E);
      var probe := w.probe(trace);
      trace := trace + [Probed];
      match probe {
        case Failed =>
          if |readable| == 1 {
            var c := fdMap[readable[0]];
            var raised := w.raises(Reconnected(c), trace);
            trace := trace + [Reconnected(c)];
            return if raised then Raised else Normal;
          }
          return Raised;
        case Ready(pr, pw, pe) =>
          CoveredSub(readable, Filter(readable, pr), fdMap);
          CoveredSub(writeable, Filter(writeable, pw), fdMap);
          CoveredSub(errorable, Filter(errorable, pe), fdMap);
          out := DispatchResults(w, fdMap, Filter(readable, pr), Filter(writeable, pw), Filter(errorable, pe));
      }
    }

    /** The loop of `select` over the connections: each says which lists it wants, and `fd_map` records it. */
    method Classify(w: World) returns (readable: seq<int>, writeable: seq<int>, errorable: seq<int>, fdMap: map<int, Conn>)
      ensures readable == Listed(w, fds, trace, R)
      ensures writeable == Listed(w, fds, trace, W)
      ensures errorable == Listed(w, fds, trace, E)
      ensures fdMap == FdMap(w, fds)
    {
      readable, writeable, errorable, fdMap := [], [], [], map[];
      var i := 0;
      while i < |fds|
        invariant 0 <= i <= |fds|
        invariant readable == Listed(w, fds[..i], trace, R)
        invariant writeable == Listed(w, fds[..i], trace, W)
        invariant errorable == Listed(w, fds[..i], trace, E)
        invariant fdMap == FdMap(w, fds[..i])
      {
        var c := fds[i];
        var want := w.interest(c, trace);
        var d := w.fileno(c);
        assert fds[..i + 1][..i] == fds[..i];
        if want.read {
          readable := readable + [d];
        }
        if want.write {
          writeable := writeable + [d];
        }
        if want.error {
          errorable := errorable + [d];
        }
        fdMap := fdMap[d := c];
        i := i + 1;
      }
      assert fds[..i] == fds;
    }

    /** The part of `select` after the probe reported the three result lists. */
    method DispatchResults(w: World, fdMap: map<int, Conn>, ins: seq<int>, outs: seq<int>, ex: seq<int>)
      returns (out: Outcome)
      requires Covered(ins, fdMap) && Covered(outs, fdMap) && Covered(ex, fdMap)
      modifies this`trace
      ensures (out, trace) == Dispatch(w, Corrected, fdMap, ins, outs, ex, old(trace))
    {
      var f1, ins1, outs1 := ErrorLoop(w, ex, fdMap, ins, outs);
      if f1 != Go {
        return Raised;
      }
      ExceptCovered(w, Corrected, ex, fdMap, ins, outs, old(trace));
      ghost var t1 := trace;
      var f2, ins2 := WriteLoop(w, outs1, fdMap, ins1);
      if f2 == Raise {
        return Raised;
      }
      if f2 == Return {
        return Normal;
      }
      WriteCovered(w, Corrected, outs1, fdMap, ins1, t1);
      out := ReadLoop(w, ins2, fdMap);
    }

    /** `for fileno in _except: self._reconnect(fd_map[fileno], _in, _out)`. */
    method ErrorLoop(w: World, ex: seq<int>, fdMap: map<int, Conn>, ins0: seq<int>, outs0: seq<int>)
      returns (flow: Flow, ins: seq<int>, outs: seq<int>)
      requires Covered(ex, fdMap)
      modifies this`trace
      ensures (flow, ins, outs, trace) == ExceptPhase(w, Corrected, ex, fdMap, ins0, outs0, old(trace))
    {
      ins, outs := ins0, outs0;
      var i := 0;
      while i < |ex|
        invariant 0 <= i <= |ex|
        invariant ExceptPhase(w, Corrected, ex, fdMap, ins0, outs0, old(trace))
                  == ExceptPhase(w, Corrected, ex[i..], fdMap, ins, outs, trace)
      {
        assert ex[i..][1..] == ex[i + 1..];
        var o, sets := Reconnect(w, fdMap[ex[i]], [ins, outs]);
        if o == Raised {
          return Raise, ins, outs;
        }
        ins, outs := sets[0], sets[1];
        i := i + 1;
      }
      flow := Go;
    }

    /** `for fileno in _out`: write, and on failure `self._reconnect(fd, _in)` and return from the pass. */
    method WriteLoop(w: World, outs: seq<int>, fdMap: map<int, Conn>, ins0: seq<int>) returns (flow: Flow, ins: seq<int>)
      requires Covered(outs, fdMap)
      modifies this`trace
      ensures (flow, ins, trace) == WritePhase(w, Corrected, outs, fdMap, ins0, old(trace))
    {
      ins := ins0;
      var i := 0;
      while i < |outs|
        invariant 0 <= i <= |outs| && ins == ins0
        invariant WritePhase(w, Corrected, outs, fdMap, ins0, old(trace))
                  == WritePhase(w, Corrected, outs[i..], fdMap, ins, trace)
      {
        assert outs[i..][1..] == outs[i + 1..];
        var c := fdMap[outs[i]];
        var raised := w.raises(Wrote(c), trace);
        trace := trace + [Wrote(c)];
        if raised {
          var o, sets := Reconnect(w, c, [ins]);
          ins := sets[0];
          return if o == Raised then Raise else Return, ins;
        }
        i := i + 1;
      }
      flow := Go;
    }

    /** `for fileno in _in`: read, and on failure reconnect and go on. */
    method ReadLoop(w: World, ins: seq<int>, fdMap: map<int, Conn>) returns (out: Outcome)
      requires Covered(ins, fdMap)
      modifies this`trace
      ensures (out, trace) == ReadPhase(w, ins, fdMap, old(trace))
    {
      var i := 0;
      while i < |ins|
        invariant 0 <= i <= |ins|
        invariant ReadPhase(w, ins, fdMap, old(trace)) == ReadPhase(w, ins[i..], fdMap, trace)
      {
        assert ins[i..][1..] == ins[i + 1..];
        var c := fdMap[ins[i]];
        ghost var t0 := trace;
        var raised := w.raises(ReadFrom(c), trace);
        trace := trace + [ReadFrom(c)];
        if raised {
          raised := w.raises(Reconnected(c), trace);
          trace := trace + [Reconnected(c)];
          assert trace == t0 + [ReadFrom(c), Reconnected(c)];
          if raised {
            return Raised;
          }
        }
        i := i + 1;
      }
      out := Normal;
    }

    /**
     * `_reconnect(self, fd, *fd_sets)` as evidently intended: take the
     * connection's descriptor out of each list where it is present, then
     * reconnect the connection.
     */
    method Reconnect(w: World, c: Conn, sets: seq<seq<int>>) returns (out: Outcome, sets': seq<seq<int>>)
      modifies this`trace
      ensures (out, sets', trace) == ReconnectRun(w, Corrected, c, sets, old(trace))
    {
      var d := w.fileno(c);
      sets' := [];
      var i := 0;
      while i < |sets|
        invariant 0 <= i <= |sets|
        invariant sets' == Removed(d, sets[..i])
      {
        assert sets[..i + 1][..i] == sets[..i];
        sets' := sets' + [Without(sets[i], d)];
        i := i + 1;
      }
      assert sets[..i] == sets;
      var raised := w.raises(Reconnected(c), trace);
      trace := trace + [Reconnected(c)];
      out := if raised then Raised else Normal;
    }
  }
}
