/** Removing the receivers that were reached from a message's target slice.  The code deletes elements of the
    slice while ranging over it: the range keeps the length the slice had when the loop began and reads the
    shared backing array, while each deletion shifts that array and shortens the slice. */
module TargetRemoval {
  import opened Options

  // ---- One pass, for one receiver ----

  /** What a pass leaves: the element after a deleted one moves into its place and is passed over. */
  function Pass(s: seq<string>, r: string): seq<string>
  {
    if s == [] then []
    else if s[0] != r then [s[0]] + Pass(s[1..], r)
    else if |s| == 1 then []
    else [s[1]] + Pass(s[2..], r)
  }

  /** When a pass runs out of bounds: the last element is the receiver and is not its first occurrence. */
  predicate PassPanics(s: seq<string>, r: string)
  {
    s != [] && s[|s| - 1] == r && r in s[..|s| - 1]
  }

  /** Passes for every receiver in turn; None if one of them panics. */
  function Passes(s: seq<string>, receivers: seq<string>): Option<seq<string>>
    decreases |receivers|
  {
    if receivers == [] then Some(s)
    else if PassPanics(s, receivers[0]) then None
    else Passes(Pass(s, receivers[0]), receivers[1..])
  }

  function Keep(s: seq<string>, gone: set<string>): seq<string>
  {
    if s == [] then [] else (if s[0] in gone then [] else [s[0]]) + Keep(s[1..], gone)
  }

  function Reached(s: seq<string>, online: set<string>): seq<string>
  {
    if s == [] then [] else (if s[0] in online then [s[0]] else []) + Reached(s[1..], online)
  }

  /** The target list after a redirect, None if the handler panics. */
  function Redirected(target: seq<string>, online: set<string>): Option<seq<string>>
  {
    if |Reached(target, online)| > 1 then Passes(target, Reached(target, online)) else Some(target)
  }

  // ---- The slice ----

  /** The backing array after element i of a slice of the given length was deleted from it. */
  function Deleted(arr: seq<string>, length: nat, i: nat): seq<string>
    requires i < length <= |arr|
  {
    arr[..i] + arr[i + 1..length] + arr[length - 1..]
  }

  class Message {
    var backing: array<string>
    var length: nat

    ghost predicate Valid()
      reads this
    {
      length <= backing.Length
    }

    ghost function Target(): seq<string>
      reads this, backing
      requires Valid()
    {
      backing[..length]
    }

    constructor (target: seq<string>)
      ensures Valid() && fresh(backing) && Target() == target
    {
      backing := new string[|target|](i requires 0 <= i < |target| => target[i]);
      length := |target|;
    }

    /** append(Target[:i], Target[i+1:]...), within the capacity. */
    method DeleteAt(i: nat) returns (panicked: bool)
      requires Valid()
      modifies this`length, backing
      ensures Valid() && panicked == (i + 1 > old(length))
      ensures panicked ==> length == old(length) && backing[..] == old(backing[..])
      ensures !panicked ==> length == old(length) - 1
      ensures !panicked ==> backing[..] == Deleted(old(backing[..]), old(length), i)
    {
      if i + 1 > length { return true; }
      var j := i;
      while j + 1 < length
        invariant i <= j < length == old(length)
        invariant forall x | 0 <= x < i || j <= x < backing.Length :: backing[x] == old(backing[x])
        invariant forall x | i <= x < j :: backing[x] == old(backing[x + 1])
      {
        backing[j] := backing[j + 1];
        j := j + 1;
      }
      length := length - 1;
      panicked := false;
    }

    /** One turn of the range: delete the element if it is the receiver. */
    method Turn(i: nat, r: string, ghost s: seq<string>, ghost k: nat) returns (panicked: bool, ghost k': nat)
      requires Valid() && i < |s| && Scanning(backing[..], length, s, i, k, r)
      modifies this`length, backing
      ensures Valid()
      ensures panicked ==> PassPanics(s, r)
      ensures !panicked ==> Scanning(backing[..], length, s, i + 1, k', r) && (i + 1 == |s| ==> !PassPanics(s, r))
    {
      ghost var arr := backing[..];
      panicked, k' := false, k;
      if backing[i] == r {
        if i < length { ScanDelete(arr, length, s, i, k, r); } else { ScanPanics(arr, length, s, i, k, r); }
        panicked := DeleteAt(i);
        k' := k + 1;
      } else {
        ScanKeep(arr, length, s, i, k, r);
      }
    }

    method RemoveReceiver(r: string) returns (panicked: bool)
      requires Valid()
      modifies this`length, backing
      ensures Valid()
      ensures panicked <==> PassPanics(old(Target()), r)
      ensures !panicked ==> Target() == Pass(old(Target()), r)
    {
      ghost var s := Target();
      var n := length;
      var i := 0;
      ghost var k := 0;
      ScanStart(backing[..], s, r);
      while i < n
        invariant i <= n == |s| && Valid() && Scanning(backing[..], length, s, i, k, r)
        invariant i == n ==> !PassPanics(s, r)
      {
        panicked, k := Turn(i, r, s, k);
        if panicked { return; }
        i := i + 1;
      }
      ScanEnd(backing[..], length, s, k, r);
      panicked := false;
    }

    method CollectReached(online: set<string>) returns (success: seq<string>)
      requires Valid()
      ensures success == Reached(Target(), online)
    {
      ghost var s := Target();
      success := [];
      for i := 0 to length
        invariant success + Reached(s[i..], online) == Reached(s, online)
      {
        assert s[i..][1..] == s[i + 1..] && s[i] == backing[i];
        if backing[i] in online { success := success + [backing[i]]; }
      }
    }

    /** redirectMessageToSockets, as far as the target list goes; `online` are the receivers with a connection. */
    method Redirect(online: set<string>) returns (panicked: bool)
      requires Valid()
      modifies this`length, backing
      ensures Valid()
      ensures panicked <==> Redirected(old(Target()), online).None?
      ensures !panicked ==> Target() == Redirected(old(Target()), online).value
    {
      var success := CollectReached(online);
      panicked := false;
      if |success| > 1 { panicked := RemoveReceivers(success); }
    }

    method RemoveReceivers(success: seq<string>) returns (panicked: bool)
      requires Valid()
      modifies this`length, backing
      ensures Valid()
      ensures panicked <==> Passes(old(Target()), success).None?
      ensures !panicked ==> Passes(old(Target()), success) == Some(Target())
    {
      ghost var all := Passes(Target(), success);
      panicked := false;
      var i := 0;
      while i < |success|
        invariant 0 <= i <= |success| && Valid() && !panicked
        invariant Passes(Target(), success[i..]) == all
      {
        PassesStep(Target(), success, i);
        panicked := RemoveReceiver(success[i]);
        if panicked { return; }
        i := i + 1;
      }
    }
  }

  lemma PassesStep(now: seq<string>, receivers: seq<string>, i: nat)
    requires i < |receivers|
    ensures Passes(now, receivers[i..]) ==
      if PassPanics(now, receivers[i]) then None else Passes(Pass(now, receivers[i]), receivers[i + 1..])
  {
    assert receivers[i..][0] == receivers[i] && receivers[i..][1..] == receivers[i + 1..];
  }

  lemma ScanStart(arr: seq<string>, s: seq<string>, r: string)
    requires s <= arr
    ensures Scanning(arr, |s|, s, 0, 0, r)
  {
    assert arr[..|s|] == s && s[0..] == s;
  }

  lemma ScanEnd(arr: seq<string>, length: nat, s: seq<string>, k: nat, r: string)
    requires Scanning(arr, length, s, |s|, k, r)
    ensures arr[..length] == Pass(s, r)
  {
    assert arr[..length][..length] == arr[..length];
  }

  /** Iteration i of a pass over what was s, with k deletions so far. */
  ghost predicate Scanning(arr: seq<string>, length: nat, s: seq<string>, i: nat, k: nat, r: string)
  {
    && k <= i <= |s| <= |arr| && length == |s| - k
    && (forall j | length <= j < |s| :: arr[j] == s[|s| - 1])
    && Done(arr[..length], s, i, k, r)
    && (k == 0 ==> r !in s[..i])
    && (k > 0 && i < |s| ==> r in s[..i])
  }

  lemma ScanKeep(arr: seq<string>, length: nat, s: seq<string>, i: nat, k: nat, r: string)
    requires Scanning(arr, length, s, i, k, r) && i < |s| && arr[i] != r
    ensures Scanning(arr, length, s, i + 1, k, r)
    ensures i + 1 == |s| ==> !PassPanics(s, r)
  {
    DoneRead(arr[..length], s, i, k, r);
    DoneKeep(arr[..length], s, i, k, r);
    assert s[..i + 1] == s[..i] + [s[i]];
  }

  lemma ScanDelete(arr: seq<string>, length: nat, s: seq<string>, i: nat, k: nat, r: string)
    requires Scanning(arr, length, s, i, k, r) && i < length && arr[i] == r
    ensures Scanning(Deleted(arr, length, i), length - 1, s, i + 1, k + 1, r)
    ensures i + 1 == |s| ==> !PassPanics(s, r)
  {
    var now, arr' := arr[..length], Deleted(arr, length, i);
    DoneRead(now, s, i, k, r);
    DoneDelete(now, s, i, k, r);
    assert arr'[..length - 1] == now[..i] + now[i + 1..];
    assert s[..i + 1] == s[..i] + [s[i]];
    assert k == 0 ==> s[i] == r;
    forall j | length - 1 <= j < |s| ensures arr'[j] == s[|s| - 1] {
      assert arr'[j] == arr[j];
      if j == length - 1 && k == 0 { LastOfDone(now, s, i, k, r); }
      if j == length - 1 && k > 0 { LastOfDone(now, s, i, k, r); }
    }
  }

  lemma LastOfDone(now: seq<string>, s: seq<string>, i: nat, k: nat, r: string)
    requires |now| == |s| - k && k <= i < |now| && Done(now, s, i, k, r)
    ensures now[|now| - 1] == s[|s| - 1]
  {
    assert now[i..][|now| - 1 - i] == s[i + k..][|now| - 1 - i];
  }

  lemma ScanPanics(arr: seq<string>, length: nat, s: seq<string>, i: nat, k: nat, r: string)
    requires Scanning(arr, length, s, i, k, r) && length <= i < |s| && arr[i] == r
    ensures PassPanics(s, r)
  {
    assert s[..i] <= s[..|s| - 1];
  }

  /** Progress of a pass: the slice is what was decided, then what the range has yet to read. */
  ghost predicate Done(now: seq<string>, s: seq<string>, i: nat, k: nat, r: string)
  {
    var m := if i < |now| then i else |now|;
    var n := if i + k < |s| then i + k else |s|;
    now[m..] == s[n..] && now[..m] + Pass(s[n..], r) == Pass(s, r)
  }

  lemma DoneRead(now: seq<string>, s: seq<string>, i: nat, k: nat, r: string)
    requires |now| == |s| - k && k <= i && Done(now, s, i, k, r)
    ensures i < |now| ==> i + k < |s| && now[i] == s[i + k]
  {
    if i < |now| { assert now[i..][0] == s[i + k..][0]; }
  }

  lemma DoneKeep(now: seq<string>, s: seq<string>, i: nat, k: nat, r: string)
    requires |now| == |s| - k && k <= i && Done(now, s, i, k, r)
    requires i < |now| ==> now[i] != r
    ensures Done(now, s, i + 1, k, r)
  {
    if i < |now| {
      var rest := s[i + k..];
      assert rest[1..] == s[i + 1 + k..] && now[i..][1..] == now[i + 1..];
      assert now[..i + 1] == now[..i] + [now[i]];
      assert now[..i] + ([now[i]] + Pass(rest[1..], r)) == now[..i + 1] + Pass(rest[1..], r);
    }
  }

  lemma DoneDelete(now: seq<string>, s: seq<string>, i: nat, k: nat, r: string)
    requires |now| == |s| - k && k <= i < |now| && Done(now, s, i, k, r) && now[i] == r
    ensures Done(now[..i] + now[i + 1..], s, i + 1, k + 1, r)
  {
    var rest := s[i + k..];
    var now' := now[..i] + now[i + 1..];
    assert rest == now[i..];
    if |rest| == 1 {
      assert now' == now[..i] && now'[|now'|..] == s[|s|..] == [];
    } else {
      assert rest[2..] == s[i + 1 + (k + 1)..] && now'[i + 1..] == now[i + 2..] == now[i..][2..];
      assert now'[..i + 1] == now[..i] + [now[i + 1]] && now[i + 1] == rest[1];
      assert now[..i] + ([rest[1]] + Pass(rest[2..], r)) == now'[..i + 1] + Pass(rest[2..], r);
    }
  }

  // ---- One pass, element by element ----

  lemma {:induction false} PassCounts(s: seq<string>, r: string, x: string)
    ensures x != r ==> multiset(Pass(s, r))[x] == multiset(s)[x]
    ensures r in s ==> multiset(Pass(s, r))[r] < multiset(s)[r]
    ensures r !in s ==> multiset(Pass(s, r))[r] == 0
    decreases |s|
  {
    if s != [] {
      assert s == [s[0]] + s[1..];
      if s[0] != r {
        PassCounts(s[1..], r, x);
      } else if |s| > 1 {
        assert s == [s[0], s[1]] + s[2..];
        PassCounts(s[2..], r, x);
      }
    }
  }

  lemma {:induction false} PassKeepsLast(s: seq<string>, r: string)
    requires s != [] && s[|s| - 1] != r
    ensures Pass(s, r) != [] && Pass(s, r)[|Pass(s, r)| - 1] == s[|s| - 1]
    decreases |s|
  {
    if s[0] != r {
      if |s| > 1 { PassKeepsLast(s[1..], r); }
    } else if |s| > 2 {
      PassKeepsLast(s[2..], r);
    }
  }

  lemma {:induction false} KeepPass(s: seq<string>, r: string, gone: set<string>)
    requires r in gone
    ensures Keep(Pass(s, r), gone) == Keep(s, gone)
    decreases |s|
  {
    if s != [] {
      if s[0] != r {
        KeepPass(s[1..], r, gone);
        assert Pass(s, r)[1..] == Pass(s[1..], r);
      } else if |s| > 1 {
        KeepPass(s[2..], r, gone);
        assert s[1..][1..] == s[2..] && Pass(s, r)[1..] == Pass(s[2..], r);
      }
    }
  }

  lemma {:induction false} KeepNothing(s: seq<string>, gone: set<string>)
    requires forall x | x in s :: x !in gone
    ensures Keep(s, gone) == s
  {
    if s != [] { KeepNothing(s[1..], gone); }
  }

  lemma LastOf(s: seq<string>)
    requires s != []
    ensures multiset(s)[s[|s| - 1]] == multiset(s[..|s| - 1])[s[|s| - 1]] + 1
  {
    assert s == s[..|s| - 1] + [s[|s| - 1]];
  }

  // ---- All passes ----

  lemma {:induction false} ReachedCounts(s: seq<string>, online: set<string>, x: string)
    ensures multiset(Reached(s, online))[x] == if x in online then multiset(s)[x] else 0
  {
    if s != [] {
      assert s == [s[0]] + s[1..];
      ReachedCounts(s[1..], online, x);
    }
  }

  lemma {:induction false} ReachedEndsLast(s: seq<string>, online: set<string>)
    requires s != [] && s[|s| - 1] in online
    ensures var success := Reached(s, online); success != [] && success[|success| - 1] == s[|s| - 1]
  {
    if |s| > 1 { ReachedEndsLast(s[1..], online); }
  }

  /** A receiver that is last and not alone survives every pass before its own, where it makes the pass panic. */
  lemma {:induction false} RepeatedLastPanics(s: seq<string>, receivers: seq<string>)
    requires s != [] && multiset(s)[s[|s| - 1]] > 1 && s[|s| - 1] in receivers
    ensures Passes(s, receivers) == None
    decreases |receivers|
  {
    var last := s[|s| - 1];
    if receivers[0] == last {
      LastOf(s);
    } else {
      PassKeepsLast(s, receivers[0]);
      PassCounts(s, receivers[0], last);
      RepeatedLastPanics(Pass(s, receivers[0]), receivers[1..]);
    }
  }

  /** No pass panics while the last element is not its receiver, and the very last pass may take it if it is alone. */
  lemma {:induction false} OtherLastIsSafe(s: seq<string>, receivers: seq<string>)
    requires s != []
    requires forall j | 0 <= j < |receivers| - 1 :: receivers[j] != s[|s| - 1]
    requires s[|s| - 1] in receivers ==> multiset(s)[s[|s| - 1]] == 1
    ensures Passes(s, receivers).Some?
    decreases |receivers|
  {
    if receivers != [] {
      var last := s[|s| - 1];
      if receivers[0] == last {
        LastOf(s);
      } else {
        PassKeepsLast(s, receivers[0]);
        PassCounts(s, receivers[0], last);
        var rest := receivers[1..];
        assert forall j | 0 <= j < |rest| :: rest[j] == receivers[j + 1];
        assert last in rest ==> last in receivers;
        OtherLastIsSafe(Pass(s, receivers[0]), rest);
      }
    }
  }

  lemma {:induction false} PassesRemoveAll(s: seq<string>, receivers: seq<string>, online: set<string>)
    requires forall r | r in receivers :: r in online
    requires forall x | x in online :: multiset(s)[x] <= multiset(receivers)[x]
    requires Passes(s, receivers).Some?
    ensures Passes(s, receivers).value == Keep(s, online)
    decreases |receivers|
  {
    if receivers == [] {
      forall x | x in s ensures x !in online { assert multiset(s)[x] > 0; }
      KeepNothing(s, online);
    } else {
      var r := receivers[0];
      assert receivers == [r] + receivers[1..];
      forall x | x in online ensures multiset(Pass(s, r))[x] <= multiset(receivers[1..])[x] { PassCounts(s, r, x); }
      PassesRemoveAll(Pass(s, r), receivers[1..], online);
      KeepPass(s, r, online);
    }
  }

  // ---- The redirect ----

  /** The last one listed is reached and listed before. */
  predicate LastReachedTwice(target: seq<string>, online: set<string>)
  {
    target != [] && target[|target| - 1] in online && target[|target| - 1] in target[..|target| - 1]
  }

  /** The handler slices out of bounds exactly if the last receiver listed is reached and listed before. */
  lemma RedirectPanicsIffLastReachedTwice(target: seq<string>, online: set<string>)
    ensures Redirected(target, online).None? <==> LastReachedTwice(target, online)
  {
    var success := Reached(target, online);
    if target != [] {
      var last := target[|target| - 1];
      ReachedCounts(target, online, last);
      LastOf(target);
      if LastReachedTwice(target, online) {
        assert multiset(success)[last] > 1;
        TwoAtLeast(success, last);
        RepeatedLastPanics(target, success);
      } else if |success| > 1 {
        if last in online {
          ReachedEndsLast(target, online);
          LastOf(success);
          forall j | 0 <= j < |success| - 1 ensures success[j] != last {
            assert success[j] in success[..|success| - 1];
          }
        } else {
          forall j | 0 <= j < |success| - 1 ensures success[j] != last { assert success[j] in success; }
        }
        OtherLastIsSafe(target, success);
      }
    }
  }

  lemma TwoAtLeast(s: seq<string>, x: string)
    requires multiset(s)[x] > 1
    ensures x in s && |s| > 1
  {
    if |s| == 1 { OneAtMost(s, x); }
  }

  lemma OneAtMost(s: seq<string>, x: string)
    requires |s| == 1
    ensures multiset(s)[x] <= 1
  {
    assert s == [s[0]];
  }

  /** When it does not panic it removes exactly the reached receivers, the others staying in order, if at least two
      were reached, and nobody otherwise; receivers listed twice are no exception. */
  lemma RedirectRemovesReached(target: seq<string>, online: set<string>)
    ensures Redirected(target, online) ==
      if LastReachedTwice(target, online) then None
      else Some(if |Reached(target, online)| > 1 then Keep(target, online) else target)
  {
    RedirectPanicsIffLastReachedTwice(target, online);
    var success := Reached(target, online);
    if !LastReachedTwice(target, online) && |success| > 1 {
      forall r | r in success ensures r in online { ReachedCounts(target, online, r); }
      forall x | x in online ensures multiset(target)[x] <= multiset(success)[x] { ReachedCounts(target, online, x); }
      PassesRemoveAll(target, success, online);
    }
  }
}
