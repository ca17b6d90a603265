/** The hierarchical levels that the RPC interceptors print: a request numbers its outgoing calls, a callee's level is
    its caller's with the number appended, and every line carries a level of its own. */
module Trace {
  import opened Options

  type Path = seq<nat>

  // ---- Levels as strings ----

  function Digit(d: nat): char
    requires d < 10
  {
    ('0' as int + d) as char
  }

  function Decimal(n: nat): string
  {
    if n < 10 then [Digit(n)] else Decimal(n / 10) + [Digit(n % 10)]
  }

  /** "%02d" */
  function Number(n: nat): string
  {
    if n < 10 then "0" + Decimal(n) else Decimal(n)
  }

  function Extend(level: string, n: nat): string
  {
    level + "." + Number(n)
  }

  function Level(root: string, path: Path): string
  {
    if path == [] then root else Extend(Level(root, path[..|path| - 1]), path[|path| - 1])
  }

  // ---- The interceptors ----

  /** The calls a request makes, one after the other; Lost is a call that no server interceptor sees. */
  datatype Call = Lost | Served(calls: seq<Call>)

  /** A line of the log, with its caller's level and its own. */
  datatype Line = TraceLine(caller: string, level: string) | ReceiveLine(caller: string, level: string)

  /** The levels of an outgoing call, read from the metadata and the counter of the request it is made in; outside any
      request both are empty. */
  method ClientLevels(invoker: Option<string>, counter: nat) returns (caller: string, level: string)
    ensures invoker.Some? ==> caller == invoker.value && level == Extend(invoker.value, counter)
    ensures invoker.None? ==> caller == "" && level == ""
  {
    caller, level := "", "";
    if invoker.Some? {
      caller := invoker.value;
      level := invoker.value + "." + Number(counter);
    }
  }

  class Log {
    var lines: seq<Line>

    constructor ()
      ensures lines == []
    {
      lines := [];
    }

    /** The server interceptor around a handler that makes the calls in order. */
    method Serve(invoker: Option<string>, calls: seq<Call>)
      modifies this
      ensures lines == old(lines) + Lines(if invoker.Some? then invoker.value else "01", calls, 0)
      decreases calls
    {
      var counter := 0;
      var zixelInvokerLevel := invoker;
      if zixelInvokerLevel.None? { zixelInvokerLevel := Some("01"); }
      var own := zixelInvokerLevel.value;
      ghost var before := lines;
      for k := 0 to |calls|
        invariant counter == k
        invariant lines + Lines(own, calls, k) == before + Lines(own, calls, 0)
      {
        LinesStep(lines, own, calls, k);
        counter := counter + 1;
        MakeCall(zixelInvokerLevel, counter, calls[k]);
      }
      counter := counter + 1;
      lines := lines + [ReceiveLine(own, own + "." + Number(counter))];
    }

    /** The client interceptor around one call. */
    method MakeCall(invoker: Option<string>, counter: nat, call: Call)
      requires invoker.Some?
      modifies this
      ensures var level := Extend(invoker.value, counter);
        lines == old(lines) + Below(level, call) + [TraceLine(invoker.value, level)]
      decreases call
    {
      var caller, level := ClientLevels(invoker, counter);
      if call.Served? { Serve(Some(level), call.calls); }
      lines := lines + [TraceLine(caller, level)];
    }
  }

  // ---- Their specification ----

  function Below(level: string, call: Call): seq<Line>
    decreases call
  {
    if call.Served? then Lines(level, call.calls, 0) else []
  }

  function Lines(own: string, calls: seq<Call>, k: nat): seq<Line>
    requires k <= |calls|
    decreases calls, |calls| - k
  {
    if k == |calls| then [ReceiveLine(own, Extend(own, k + 1))]
    else Below(Extend(own, k + 1), calls[k]) + [TraceLine(own, Extend(own, k + 1))] + Lines(own, calls, k + 1)
  }

  lemma LinesStep(before: seq<Line>, own: string, calls: seq<Call>, k: nat)
    requires k < |calls|
    ensures before + Lines(own, calls, k)
         == before + Below(Extend(own, k + 1), calls[k]) + [TraceLine(own, Extend(own, k + 1))]
             + Lines(own, calls, k + 1)
  {
  }

  // ---- The same lines as paths in the call tree ----

  function PathsBelow(path: Path, call: Call): seq<Path>
    decreases call
  {
    if call.Served? then Paths(path, call.calls, 0) else []
  }

  function Paths(own: Path, calls: seq<Call>, k: nat): seq<Path>
    requires k <= |calls|
    decreases calls, |calls| - k
  {
    if k == |calls| then [own + [k + 1]]
    else PathsBelow(own + [k + 1], calls[k]) + [own + [k + 1]] + Paths(own, calls, k + 1)
  }

  predicate PrintsAt(root: string, line: Line, path: Path)
  {
    path != [] && line.level == Level(root, path) && line.caller == Level(root, path[..|path| - 1])
  }

  predicate Prints(root: string, lines: seq<Line>, paths: seq<Path>)
  {
    |lines| == |paths| && forall j | 0 <= j < |lines| :: PrintsAt(root, lines[j], paths[j])
  }

  lemma PrintsOne(root: string, own: Path, n: nat, line: Line)
    requires line.caller == Level(root, own) && line.level == Extend(Level(root, own), n)
    ensures Prints(root, [line], [own + [n]])
  {
    assert (own + [n])[..|own + [n]| - 1] == own;
  }

  lemma PrintsJoin(root: string, a: seq<Line>, p: seq<Path>, b: seq<Line>, q: seq<Path>)
    requires Prints(root, a, p) && Prints(root, b, q)
    ensures Prints(root, a + b, p + q)
  {
    forall j | 0 <= j < |a + b| ensures PrintsAt(root, (a + b)[j], (p + q)[j]) {
      if j < |a| {
        assert (a + b)[j] == a[j] && (p + q)[j] == p[j];
      } else {
        assert (a + b)[j] == b[j - |a|] && (p + q)[j] == q[j - |a|];
      }
    }
  }

  lemma {:induction false} LinesPrintPaths(root: string, own: Path, calls: seq<Call>, k: nat)
    requires k <= |calls|
    ensures Prints(root, Lines(Level(root, own), calls, k), Paths(own, calls, k))
    decreases calls, |calls| - k
  {
    var level := Level(root, own);
    assert (own + [k + 1])[..|own|] == own;
    if k == |calls| {
      PrintsOne(root, own, k + 1, ReceiveLine(level, Extend(level, k + 1)));
    } else {
      var next := own + [k + 1];
      assert Level(root, next) == Extend(level, k + 1);
      if calls[k].Served? { LinesPrintPaths(root, next, calls[k].calls, 0); }
      PrintsOne(root, own, k + 1, TraceLine(level, Extend(level, k + 1)));
      LinesPrintPaths(root, own, calls, k + 1);
      PrintsJoin(root, Below(Extend(level, k + 1), calls[k]), PathsBelow(next, calls[k]),
                 [TraceLine(level, Extend(level, k + 1))], [next]);
      PrintsJoin(root, Below(Extend(level, k + 1), calls[k]) + [TraceLine(level, Extend(level, k + 1))],
                 PathsBelow(next, calls[k]) + [next], Lines(level, calls, k + 1), Paths(own, calls, k + 1));
    }
  }

  // ---- Distinct paths ----

  predicate Distinct(paths: seq<Path>)
  {
    forall i, j | 0 <= i < j < |paths| :: paths[i] != paths[j]
  }

  predicate PastOwn(paths: seq<Path>, own: Path, low: nat)
  {
    forall i | 0 <= i < |paths| :: |own| < |paths[i]| && own == paths[i][..|own|] && low <= paths[i][|own|]
  }

  lemma {:induction false} PathsDistinct(own: Path, calls: seq<Call>, k: nat)
    requires k <= |calls|
    ensures Distinct(Paths(own, calls, k)) && PastOwn(Paths(own, calls, k), own, k + 1)
    decreases calls, |calls| - k
  {
    if k < |calls| {
      var next := own + [k + 1];
      var below, after := PathsBelow(next, calls[k]), Paths(own, calls, k + 1);
      if calls[k].Served? { PathsDistinct(next, calls[k].calls, 0); }
      PathsDistinct(own, calls, k + 1);
      JoinDistinct(own, k + 1, below, after);
    }
  }

  lemma JoinDistinct(own: Path, n: nat, below: seq<Path>, after: seq<Path>)
    requires Distinct(below) && PastOwn(below, own + [n], 1)
    requires Distinct(after) && PastOwn(after, own, n + 1)
    ensures Distinct(below + [own + [n]] + after) && PastOwn(below + [own + [n]] + after, own, n)
  {
    var next := own + [n];
    forall i | 0 <= i < |below| ensures |below[i]| > |next| && below[i][..|own|] == own && below[i][|own|] == n {
      assert below[i][..|next|][..|own|] == below[i][..|own|];
      assert below[i][..|next|][|own|] == n;
    }
  }

  // ---- Which paths, and in which order ----

  /** A path names a place if its numbers do: at each request one of its calls, or one more for its own line; and every
      call but the last on the path is served. */
  predicate IsPlace(calls: seq<Call>, p: Path)
    decreases |p|
  {
    && p != [] && 1 <= p[0] <= |calls| + 1
    && (|p| > 1 ==> p[0] <= |calls| && calls[p[0] - 1].Served? && IsPlace(calls[p[0] - 1].calls, p[1..]))
  }

  /** The place is a request's own line, not that of a call. */
  predicate IsOwnLine(calls: seq<Call>, p: Path)
    requires IsPlace(calls, p)
    decreases |p|
  {
    if |p| == 1 then p[0] == |calls| + 1 else IsOwnLine(calls[p[0] - 1].calls, p[1..])
  }

  /** p is printed before q: it is below q, or where they part its number is the smaller. */
  predicate Sooner(p: Path, q: Path)
    decreases |p|
  {
    p != [] && (q == [] || p[0] < q[0] || (p[0] == q[0] && Sooner(p[1..], q[1..])))
  }

  /** Line i of those that a request prints from its call k on. */
  predicate LineAt(calls: seq<Call>, k: nat, line: Line, p: Path)
  {
    IsPlace(calls, p) && p[0] > k && (line.ReceiveLine? <==> IsOwnLine(calls, p))
  }

  predicate LinesAt(calls: seq<Call>, k: nat, lines: seq<Line>, own: Path, paths: seq<Path>)
  {
    |lines| == |paths|
    && forall i | 0 <= i < |lines| :: own <= paths[i] && LineAt(calls, k, lines[i], paths[i][|own|..])
  }

  lemma LinesAtJoin(calls: seq<Call>, k: nat, a: seq<Line>, b: seq<Line>, own: Path, p: seq<Path>, q: seq<Path>)
    requires LinesAt(calls, k, a, own, p) && LinesAt(calls, k, b, own, q)
    ensures LinesAt(calls, k, a + b, own, p + q)
  {
  }

  /** What is printed below call k is at places of the request that makes it. */
  lemma LinesOfCall(calls: seq<Call>, k: nat, lines: seq<Line>, own: Path, paths: seq<Path>)
    requires k < |calls| && calls[k].Served? && LinesAt(calls[k].calls, 0, lines, own + [k + 1], paths)
    ensures LinesAt(calls, k, lines, own, paths)
  {
    var next := own + [k + 1];
    forall i | 0 <= i < |lines| ensures own <= paths[i] && LineAt(calls, k, lines[i], paths[i][|own|..]) {
      var p := paths[i][|own|..];
      assert paths[i][..|next|] == next && p[0] == k + 1 && p[1..] == paths[i][|next|..];
    }
  }

  lemma OneLineAt(calls: seq<Call>, k: nat, line: Line, own: Path)
    requires k <= |calls| && (line.ReceiveLine? <==> k == |calls|)
    ensures LinesAt(calls, k, [line], own, [own + [k + 1]])
  {
    assert (own + [k + 1])[|own|..] == [k + 1];
  }

  lemma LaterLines(calls: seq<Call>, k: nat, lines: seq<Line>, own: Path, paths: seq<Path>)
    requires LinesAt(calls, k + 1, lines, own, paths)
    ensures LinesAt(calls, k, lines, own, paths)
  {
  }

  lemma {:induction false} LinesAreAt(level: string, own: Path, calls: seq<Call>, k: nat)
    requires k <= |calls|
    ensures LinesAt(calls, k, Lines(level, calls, k), own, Paths(own, calls, k))
    decreases calls, |calls| - k
  {
    var next, inner := own + [k + 1], Extend(level, k + 1);
    if k == |calls| {
      OneLineAt(calls, k, ReceiveLine(level, inner), own);
    } else {
      var below, places := Below(inner, calls[k]), PathsBelow(next, calls[k]);
      if calls[k].Served? {
        LinesAreAt(inner, next, calls[k].calls, 0);
        LinesOfCall(calls, k, below, own, places);
      }
      LinesAreAt(level, own, calls, k + 1);
      LaterLines(calls, k, Lines(level, calls, k + 1), own, Paths(own, calls, k + 1));
      OneLineAt(calls, k, TraceLine(level, inner), own);
      LinesAtJoin(calls, k, below, [TraceLine(level, inner)], own, places, [next]);
      LinesAtJoin(calls, k, below + [TraceLine(level, inner)], Lines(level, calls, k + 1), own, places + [next],
                  Paths(own, calls, k + 1));
    }
  }

  lemma {:induction false} EveryPlace(own: Path, calls: seq<Call>, k: nat, p: Path)
    requires k <= |calls| && IsPlace(calls, p) && p[0] > k
    ensures own + p in Paths(own, calls, k)
    decreases calls, |calls| - k
  {
    var next := own + [k + 1];
    if p[0] == k + 1 {
      if |p| == 1 {
        assert own + p == next;
      } else {
        EveryPlace(next, calls[k].calls, 0, p[1..]);
        assert own + p == next + p[1..];
      }
    } else {
      EveryPlace(own, calls, k + 1, p);
    }
  }

  lemma {:induction false} SoonerBelow(own: Path, p: Path, q: Path)
    ensures Sooner(own + p, own + q) <==> Sooner(p, q)
  {
    if own == [] {
      assert own + p == p && own + q == q;
    } else {
      assert (own + p)[1..] == own[1..] + p && (own + q)[1..] == own[1..] + q;
      SoonerBelow(own[1..], p, q);
    }
  }

  predicate InOrder(paths: seq<Path>)
  {
    forall i, j | 0 <= i < j < |paths| :: Sooner(paths[i], paths[j])
  }

  lemma JoinInOrder(own: Path, n: nat, below: seq<Path>, after: seq<Path>)
    requires InOrder(below) && PastOwn(below, own + [n], 1)
    requires InOrder(after) && PastOwn(after, own, n + 1)
    ensures InOrder(below + [own + [n]] + after)
  {
    var next := own + [n];
    var all := below + [next] + after;
    forall i | 0 <= i < |below| ensures Sooner(below[i], next) {
      var p := below[i][|next|..];
      assert below[i] == next + p && next + [] == next;
      SoonerBelow(next, p, []);
    }
    forall i, j | 0 <= i <= |below| && 0 <= j < |after| ensures Sooner(all[i], after[j]) {
      var p, q := all[i][|own|..], after[j][|own|..];
      assert i < |below| ==> below[i][..|next|] == next;
      assert all[i][..|own|] == own && all[i][|own|] == n;
      assert all[i] == own + p && after[j] == own + q;
      SoonerBelow(own, p, q);
    }
  }

  lemma {:induction false} PathsInOrder(own: Path, calls: seq<Call>, k: nat)
    requires k <= |calls|
    ensures InOrder(Paths(own, calls, k))
    decreases calls, |calls| - k
  {
    if k < |calls| {
      var next := own + [k + 1];
      if calls[k].Served? {
        PathsInOrder(next, calls[k].calls, 0);
        PathsDistinct(next, calls[k].calls, 0);
      }
      PathsInOrder(own, calls, k + 1);
      PathsDistinct(own, calls, k + 1);
      JoinInOrder(own, k + 1, PathsBelow(next, calls[k]), Paths(own, calls, k + 1));
    }
  }

  /** The log of a request has a line for each place of its call tree and no other, everything below a call before the
      line of the call, and the calls of a request in their order before its own line. */
  lemma LogIsTheTree(root: string, calls: seq<Call>, p: Path)
    ensures var lines, paths := Lines(root, calls, 0), Paths([], calls, 0);
      && Prints(root, lines, paths) && InOrder(paths)
      && (p in paths <==> IsPlace(calls, p))
      && (forall i | 0 <= i < |lines| ::
            IsPlace(calls, paths[i]) && (lines[i].ReceiveLine? <==> IsOwnLine(calls, paths[i])))
  {
    LinesPrintPaths(root, [], calls, 0);
    PathsInOrder([], calls, 0);
    LinesAreAt(root, [], calls, 0);
    var lines, paths := Lines(root, calls, 0), Paths([], calls, 0);
    forall i | 0 <= i < |lines| ensures LineAt(calls, 0, lines[i], paths[i]) {
      assert paths[i][0..] == paths[i];
    }
    if IsPlace(calls, p) {
      EveryPlace([], calls, 0, p);
      assert [] + p == p;
    }
  }

  // ---- The encoding is injective ----

  predicate Digits(s: string)
  {
    forall k | 0 <= k < |s| :: '0' <= s[k] <= '9'
  }

  function ValueOf(s: string): nat
    requires Digits(s)
  {
    if s == "" then 0 else ValueOf(s[..|s| - 1]) * 10 + (s[|s| - 1] as int - '0' as int)
  }

  lemma {:induction false} DecimalValue(n: nat)
    ensures Digits(Decimal(n)) && ValueOf(Decimal(n)) == n
  {
    if n < 10 {
      assert Decimal(n)[..0] == "";
    } else {
      DecimalValue(n / 10);
      assert Decimal(n)[..|Decimal(n)| - 1] == Decimal(n / 10);
    }
  }

  lemma NumberValue(n: nat)
    ensures Digits(Number(n)) && ValueOf(Number(n)) == n
  {
    DecimalValue(n);
    if n < 10 {
      assert Number(n) == ['0', Digit(n)];
      assert Number(n)[..1] == "0" && "0"[..0] == "";
    }
  }

  /** What follows the root. */
  function Tail(path: Path): string
  {
    if path == [] then "" else "." + Number(path[0]) + Tail(path[1..])
  }

  lemma {:induction false} TailSnoc(path: Path, n: nat)
    ensures Tail(path + [n]) == Tail(path) + "." + Number(n)
  {
    if path == [] {
      assert [n][1..] == [];
    } else {
      assert (path + [n])[1..] == path[1..] + [n];
      TailSnoc(path[1..], n);
    }
  }

  lemma {:induction false} LevelIsTail(root: string, path: Path)
    ensures Level(root, path) == root + Tail(path)
  {
    if path != [] {
      var p, n := path[..|path| - 1], path[|path| - 1];
      LevelIsTail(root, p);
      TailSnoc(p, n);
      assert path == p + [n];
    }
  }

  predicate DotOrEnd(s: string)
  {
    s == "" || s[0] == '.'
  }

  lemma CutAtDigit(a: string, b: string, s: string, t: string)
    requires Digits(b) && DotOrEnd(s) && a + s == b + t
    ensures |a| >= |b|
  {
    assert forall k | 0 <= k < |b| :: (a + s)[k] == b[k];
    assert s != "" ==> (a + s)[|a|] == '.';
  }

  lemma NumbersCut(a: string, b: string, s: string, t: string)
    requires Digits(a) && Digits(b) && DotOrEnd(s) && DotOrEnd(t) && a + s == b + t
    ensures a == b && s == t
  {
    CutAtDigit(a, b, s, t);
    CutAtDigit(b, a, t, s);
    assert a == (a + s)[..|a|] && b == (b + t)[..|b|];
    assert s == (a + s)[|a|..] && t == (b + t)[|b|..];
  }

  lemma AfterDot(a: string, s: string)
    ensures ("." + a + s)[1..] == a + s
  {
  }

  lemma FirstNumbers(a: nat, s: string, b: nat, t: string)
    requires DotOrEnd(s) && DotOrEnd(t) && "." + Number(a) + s == "." + Number(b) + t
    ensures a == b && s == t
  {
    NumberValue(a);
    NumberValue(b);
    AfterDot(Number(a), s);
    AfterDot(Number(b), t);
    NumbersCut(Number(a), Number(b), s, t);
  }

  lemma Regroup(a: string, b: string, s: string)
    ensures "." + a + b + s == "." + a + (b + s)
  {
  }

  lemma PeelNumber(p: Path, q: Path, s: string)
    requires DotOrEnd(s) && p != [] && Tail(p) + s == Tail(q)
    ensures q != [] && p[0] == q[0] && Tail(p[1..]) + s == Tail(q[1..])
  {
    TailDots(p, s);
    TailStarts(p);
    assert Tail(q) != "";
    Regroup(Number(p[0]), Tail(p[1..]), s);
    TailDots(p[1..], s);
    TailDots(q[1..], "");
    FirstNumbers(p[0], Tail(p[1..]) + s, q[0], Tail(q[1..]));
  }

  lemma TailDots(path: Path, s: string)
    requires DotOrEnd(s)
    ensures DotOrEnd(Tail(path)) && DotOrEnd(Tail(path) + s)
  {
    if path == [] {
      assert Tail(path) + s == s;
    } else {
      TailStarts(path);
      assert (Tail(path) + s)[0] == '.';
    }
  }

  lemma {:induction false} TailPrefix(p: Path, q: Path, s: string)
    requires DotOrEnd(s) && Tail(p) + s == Tail(q)
    ensures |p| <= |q| && p == q[..|p|] && s == Tail(q[|p|..])
    decreases |p|
  {
    if p == [] {
      assert Tail(p) + s == s && q[0..] == q;
    } else {
      PeelNumber(p, q, s);
      TailPrefix(p[1..], q[1..], s);
      assert q[1..][|p| - 1..] == q[|p|..];
      assert p == [p[0]] + p[1..] && q[..|p|] == [q[0]] + q[1..][..|p| - 1];
    }
  }

  lemma TailEmpty(path: Path)
    ensures Tail(path) == "" <==> path == []
  {
    if path != [] { assert |Tail(path)| > 0; }
  }

  lemma LevelInjective(root: string, p: Path, q: Path)
    ensures Level(root, p) == Level(root, q) <==> p == q
  {
    LevelIsTail(root, p);
    LevelIsTail(root, q);
    if Level(root, p) == Level(root, q) {
      assert Tail(p) == (root + Tail(p))[|root|..] && Tail(q) == (root + Tail(q))[|root|..];
      assert Tail(p) + "" == Tail(q);
      TailPrefix(p, q, "");
      TailEmpty(q[|p|..]);
      assert p == q;
    }
  }

  lemma {:induction false} TailJoin(p: Path, q: Path)
    ensures Tail(p + q) == Tail(p) + Tail(q)
  {
    if p == [] {
      assert p + q == q;
    } else {
      assert (p + q)[1..] == p[1..] + q;
      TailJoin(p[1..], q);
    }
  }

  lemma PrefixSplit(a: string, b: string)
    ensures a <= b <==> |a| <= |b| && a == b[..|a|]
  {
  }

  lemma PrefixCancels(root: string, a: string, b: string)
    ensures root + a <= root + b <==> a <= b
  {
    PrefixSplit(a, b);
    PrefixSplit(root + a, root + b);
    if |a| <= |b| {
      assert (root + b)[..|root + a|] == root + b[..|a|];
      assert b[..|a|] == (root + b[..|a|])[|root|..] && a == (root + a)[|root|..];
    }
  }

  lemma TailStarts(path: Path)
    requires path != []
    ensures Tail(path) != "" && Tail(path)[0] == '.'
  {
  }

  lemma DotBegins(a: string, t: string)
    requires t != "" && t[0] == '.'
    ensures a + "." <= a + t
  {
    assert t == "." + t[1..];
    assert a + t == (a + ".") + t[1..];
  }

  lemma TailDotted(p: Path, q: Path)
    requires p < q
    ensures Tail(p) + "." <= Tail(q)
  {
    var rest := q[|p|..];
    assert q == p + rest;
    TailJoin(p, rest);
    TailStarts(rest);
    DotBegins(Tail(p), Tail(rest));
  }

  lemma DottedRest(a: string, b: string)
    requires a + "." <= b
    ensures var s := b[|a|..]; b == a + s && s != "" && s[0] == '.'
  {
    assert b[|a|] == (a + ".")[|a|];
    assert b[..|a|] == (a + ".")[..|a|] == a;
  }

  lemma DottedTail(p: Path, q: Path)
    requires Tail(p) + "." <= Tail(q)
    ensures p < q
  {
    DottedRest(Tail(p), Tail(q));
    TailPrefix(p, q, Tail(q)[|Tail(p)|..]);
    TailEmpty(q[|p|..]);
  }

  /** A level followed by a dot begins another exactly when its place in the call tree is above the other's. */
  lemma DottedPrefixIffAncestor(root: string, p: Path, q: Path)
    ensures Level(root, p) + "." <= Level(root, q) <==> p < q
  {
    LevelIsTail(root, p);
    LevelIsTail(root, q);
    assert Level(root, p) + "." == root + (Tail(p) + ".");
    PrefixCancels(root, Tail(p) + ".", Tail(q));
    if p < q { TailDotted(p, q); }
    if Tail(p) + "." <= Tail(q) { DottedTail(p, q); }
  }

  // ---- Prefixes without the dot ----

  /** The paths agree up to p's last number, which q's number there begins with and goes on. */
  predicate CutsNumber(p: Path, q: Path)
  {
    && p != [] && |p| <= |q| && p[..|p| - 1] == q[..|p| - 1]
    && Number(p[|p| - 1]) < Number(q[|p| - 1])
  }

  lemma {:induction false} NumberLength(n: nat)
    ensures |Number(n)| >= 2 && (|Number(n)| == 2 <==> n < 100)
  {
    if n >= 10 {
      DecimalLength(n / 10);
      assert |Decimal(n)| == |Decimal(n / 10)| + 1;
    }
  }

  lemma {:induction false} DecimalLength(n: nat)
    ensures |Decimal(n)| >= 1 && (|Decimal(n)| == 1 <==> n < 10)
  {
    if n >= 10 { DecimalLength(n / 10); }
  }

  lemma BeforeDot(a: string, s: string, b: string, t: string)
    requires Digits(a) && Digits(b) && DotOrEnd(t) && s != "" && s[0] == '.' && a + s <= b + t
    ensures a == b && s <= t
  {
    var u := (b + t)[|a + s|..];
    assert a + (s + u) == b + t;
    NumbersCut(a, b, s + u, t);
  }

  lemma WithinDigits(a: string, b: string, t: string)
    requires Digits(a) && Digits(b) && DotOrEnd(t) && a <= b + t
    ensures a <= b
  {
    var u := (b + t)[|a|..];
    assert b + t == a + u;
    CutAtDigit(b, a, t, u);
    PrefixSplit(a, b);
    assert (b + t)[..|a|] == a;
  }

  lemma StepPrefix(p: Path, q: Path)
    requires p != [] && Tail(p) <= Tail(q)
    ensures q != []
    ensures |p| > 1 ==> p[0] == q[0] && Tail(p[1..]) <= Tail(q[1..])
    ensures |p| == 1 ==> Number(p[0]) <= Number(q[0])
  {
    TailStarts(p);
    var a, s, b, t := Number(p[0]), Tail(p[1..]), Number(q[0]), Tail(q[1..]);
    NumberValue(p[0]);
    NumberValue(q[0]);
    TailDots(q[1..], "");
    AfterDots(a, s, b, t);
    if |p| > 1 {
      TailStarts(p[1..]);
      BeforeDot(a, s, b, t);
    } else {
      assert a + s == a;
      WithinDigits(a, b, t);
    }
  }

  lemma AfterDots(a: string, s: string, b: string, t: string)
    requires "." + a + s <= "." + b + t
    ensures a + s <= b + t
  {
    assert "." + a + s == "." + (a + s) && "." + b + t == "." + (b + t);
    PrefixCancels(".", a + s, b + t);
  }

  lemma OneNumber(n: nat, q: Path)
    requires q != [] && Number(n) <= Number(q[0])
    ensures [n] <= q || CutsNumber([n], q)
  {
    NumberValue(n);
    NumberValue(q[0]);
    PrefixSplit(Number(n), Number(q[0]));
    assert [n][..0] == q[..0];
    if n == q[0] {
      assert q[..1] == [n];
    } else {
      assert Number(n) != Number(q[0]);
      assert [n][|[n]| - 1] == n && [n][..|[n]| - 1] == q[..|[n]| - 1];
    }
  }

  lemma SameStart(p: Path, q: Path)
    requires |p| > 1 && q != [] && p[0] == q[0]
    requires p[1..] <= q[1..] || CutsNumber(p[1..], q[1..])
    ensures p <= q || CutsNumber(p, q)
  {
    var p', q' := p[1..], q[1..];
    if p' <= q' {
      assert q == [q[0]] + q' && p == [p[0]] + p';
      assert forall k | 0 <= k < |p| :: p[k] == q[k];
    } else {
      forall k | 0 <= k < |p| - 1 ensures p[k] == q[k] {
        if k > 0 { assert p'[..|p'| - 1][k - 1] == q'[..|p'| - 1][k - 1]; }
      }
    }
  }

  lemma {:induction false} PrefixReads(p: Path, q: Path)
    requires Tail(p) <= Tail(q)
    ensures p <= q || CutsNumber(p, q)
    decreases |p|
  {
    if p != [] {
      StepPrefix(p, q);
      if |p| == 1 {
        OneNumber(p[0], q);
        assert p == [p[0]];
      } else {
        PrefixReads(p[1..], q[1..]);
        SameStart(p, q);
      }
    }
  }

  lemma PrefixWrites(p: Path, q: Path)
    requires p <= q || CutsNumber(p, q)
    ensures Tail(p) <= Tail(q)
  {
    if p <= q {
      assert q == p + q[|p|..];
      TailJoin(p, q[|p|..]);
    } else {
      CutWrites(p, q);
    }
  }

  lemma CutWrites(p: Path, q: Path)
    requires CutsNumber(p, q)
    ensures Tail(p) <= Tail(q)
  {
    var j := |p| - 1;
    var head, rest := q[..j], q[j + 1..];
    assert p == head + [p[j]];
    assert q == (head + [q[j]]) + rest;
    TailSnoc(head, p[j]);
    TailSnoc(head, q[j]);
    TailJoin(head + [q[j]], rest);
    WiderNumber(Tail(head) + ".", Number(p[j]), Number(q[j]), Tail(rest));
  }

  lemma WiderNumber(head: string, a: string, b: string, t: string)
    requires a <= b
    ensures head + a <= head + b + t
  {
    assert head + b + t == head + a + (b[|a|..] + t);
  }

  /** A level begins another, with or without a dot after it, exactly if its place is above the other's or is its own,
      or if its last number is cut short in the other. */
  lemma BarePrefixIff(root: string, p: Path, q: Path)
    ensures Level(root, p) <= Level(root, q) <==> p <= q || CutsNumber(p, q)
  {
    LevelIsTail(root, p);
    LevelIsTail(root, q);
    PrefixCancels(root, Tail(p), Tail(q));
    if Tail(p) <= Tail(q) { PrefixReads(p, q); }
    if p <= q || CutsNumber(p, q) { PrefixWrites(p, q); }
  }

  /** Up to the ninety-ninth call of every request on the way the bare prefix tells the truth. */
  lemma BarePrefixBelowHundred(root: string, p: Path, q: Path)
    requires forall k | 0 <= k < |q| :: q[k] < 100
    ensures Level(root, p) <= Level(root, q) <==> p <= q
  {
    BarePrefixIff(root, p, q);
    if CutsNumber(p, q) {
      NumberLength(p[|p| - 1]);
      NumberLength(q[|p| - 1]);
    }
  }

  /** From the hundredth call on it does not: for every such call there is an earlier one of the same request whose
      level begins its level. */
  lemma BarePrefixMisleads(root: string, own: Path, n: nat)
    requires n >= 100
    ensures n / 10 < n && Level(root, own + [n / 10]) <= Level(root, own + [n]) && !(own + [n / 10] <= own + [n])
  {
    var p, q := own + [n / 10], own + [n];
    assert p[..|own|] == own == q[..|own|];
    assert Number(n) == Number(n / 10) + [Digit(n % 10)];
    assert CutsNumber(p, q);
    BarePrefixIff(root, p, q);
    assert p[|own|] != q[|own|];
  }

  // ---- What the log shows ----

  /** In the log of any call tree the levels are pairwise distinct, and each properly extends its caller's. */
  lemma LevelsDistinct(root: string, calls: seq<Call>)
    ensures var lines := Lines(root, calls, 0);
      && (forall i, j | 0 <= i < j < |lines| :: lines[i].level != lines[j].level)
      && (forall i | 0 <= i < |lines| :: lines[i].caller + "." <= lines[i].level && root <= lines[i].caller)
  {
    var lines, paths := Lines(root, calls, 0), Paths([], calls, 0);
    LinesPrintPaths(root, [], calls, 0);
    PathsDistinct([], calls, 0);
    forall i, j | 0 <= i < j < |lines| ensures lines[i].level != lines[j].level {
      LevelInjective(root, paths[i], paths[j]);
    }
    forall i | 0 <= i < |lines| ensures lines[i].caller + "." <= lines[i].level && root <= lines[i].caller {
      LevelIsTail(root, paths[i][..|paths[i]| - 1]);
    }
  }
}
