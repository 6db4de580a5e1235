/**
 * scripts/find_unclosed.js: a stack-based scan for `()`, `[]` and `{}` that
 * stops at the first closer without a matching opener and then reports the
 * openers still unclosed, each with the text from up to 40 characters
 * before it to up to 39 characters after it.
 */
module FindUnclosed {
  import opened Wrappers

  /** A stack entry: an opening bracket and its index in the text. */
  datatype Open = Open(ch: char, at: nat)

  predicate IsOpener(c: char)
  {
    c == '(' || c == '{' || c == '['
  }

  predicate IsCloser(c: char)
  {
    c == ')' || c == '}' || c == ']'
  }

  /** The `pairs` table: the closer of each opener. */
  function Partner(c: char): (d: char)
    requires IsOpener(c)
    ensures IsCloser(d)
  {
    if c == '(' then ')' else if c == '{' then '}' else ']'
  }

  /** `pairs[o] === c`: `o` is an opener and `c` its closer. */
  predicate Matches(o: char, c: char)
  {
    IsOpener(o) && Partner(o) == c
  }

  /** The state of the scan: still going with a stack, or stopped at a mismatched closer with the stack it had. */
  datatype Outcome = Running(stack: seq<Open>) | Mismatch(stack: seq<Open>, at: nat)

  /** One turn of the loop, on the character at index `i`. */
  function Step(s: string, i: nat, stack: seq<Open>): (r: Outcome)
    requires i < |s|
    ensures !IsOpener(s[i]) && !IsCloser(s[i]) ==> r == Running(stack)
    ensures IsOpener(s[i]) ==> r == Running(stack + [Open(s[i], i)])
    ensures IsCloser(s[i]) ==>
      if |stack| > 0 && Matches(stack[|stack| - 1].ch, s[i])
      then r == Running(stack[..|stack| - 1])
      else r == Mismatch(stack, i)
  {
    var c := s[i];
    if IsOpener(c) then Running(stack + [Open(c, i)])
    else if IsCloser(c) then
      if |stack| > 0 && Matches(stack[|stack| - 1].ch, c) then Running(stack[..|stack| - 1])
      else Mismatch(stack, i)
    else Running(stack)
  }

  /** Scanning the indices `lo` to `hi - 1` of `s`, starting from `stack`. */
  function Run(s: string, lo: nat, hi: nat, stack: seq<Open>): Outcome
    requires lo <= hi <= |s|
    decreases hi
  {
    if hi == lo then Running(stack)
    else match Run(s, lo, hi - 1, stack)
      case Running(st) => Step(s, hi - 1, st)
      case Mismatch(_, _) => Run(s, lo, hi - 1, stack)
  }

  /** The outcome of scanning the whole text from an empty stack. */
  function ScanAll(s: string): Outcome
  {
    Run(s, 0, |s|, [])
  }

  /** Once the scan stops at a mismatch, later characters change nothing. */
  lemma {:induction false} MismatchSticks(s: string, lo: nat, mid: nat, hi: nat, stack: seq<Open>)
    requires lo <= mid <= hi <= |s|
    requires Run(s, lo, mid, stack).Mismatch?
    ensures Run(s, lo, hi, stack) == Run(s, lo, mid, stack)
    decreases hi
  {
    if hi > mid {
      MismatchSticks(s, lo, mid, hi - 1, stack);
    }
  }

  /** Scanning a text in two pieces is scanning the first, then the second from where the first left off. */
  lemma {:induction false} RunSplit(s: string, lo: nat, mid: nat, hi: nat, stack: seq<Open>)
    requires lo <= mid <= hi <= |s|
    ensures Run(s, lo, hi, stack) == match Run(s, lo, mid, stack)
      case Running(st) => Run(s, mid, hi, st)
      case Mismatch(_, _) => Run(s, lo, mid, stack)
    decreases hi
  {
    if hi > mid {
      RunSplit(s, lo, mid, hi - 1, stack);
    }
  }

  /**
   * The scan loop: push openers with their index, pop on a matching closer,
   * break on any other closer. `mismatch` is the index of the offending
   * closer; the stack is left as it was when it was met.
   */
  method Scan(s: string) returns (stack: seq<Open>, mismatch: Option<nat>)
    ensures mismatch.None? ==> ScanAll(s) == Running(stack)
    ensures mismatch.Some? ==> ScanAll(s) == Mismatch(stack, mismatch.value)
  {
    stack := [];
    mismatch := None;
    var i := 0;
    while i < |s|
      invariant i <= |s|
      invariant Run(s, 0, i, []) == Running(stack)
    {
      var ch := s[i];
      if IsOpener(ch) {
        stack := stack + [Open(ch, i)];
      } else if IsCloser(ch) {
        if |stack| > 0 && Matches(stack[|stack| - 1].ch, ch) {
          stack := stack[..|stack| - 1];
        } else {
          mismatch := Some(i);
          MismatchSticks(s, 0, i + 1, |s|, []);
          return;
        }
      }
      i := i + 1;
    }
  }

  /**
   * The stack invariant: every entry is an opener found at its recorded
   * index, and the indices strictly increase and lie below the scanned length.
   */
  ghost predicate WellFormed(s: string, stack: seq<Open>, n: nat)
  {
    && (forall k | 0 <= k < |stack| :: stack[k].at < n && stack[k].at < |s|
          && IsOpener(stack[k].ch) && s[stack[k].at] == stack[k].ch)
    && (forall k, l | 0 <= k < l < |stack| :: stack[k].at < stack[l].at)
  }

  lemma {:induction false} RunWellFormed(s: string, lo: nat, hi: nat, stack: seq<Open>)
    requires lo <= hi <= |s|
    requires WellFormed(s, stack, lo)
    ensures WellFormed(s, Run(s, lo, hi, stack).stack, hi)
    decreases hi
  {
    if hi > lo {
      RunWellFormed(s, lo, hi - 1, stack);
    }
  }

  /** Whatever the outcome, the stack obeys the invariant. */
  lemma ScanWellFormed(s: string)
    ensures WellFormed(s, ScanAll(s).stack, |s|)
  {
    RunWellFormed(s, 0, |s|, []);
  }

  /**
   * A mismatch is at a closer that the top of the stack does not match (or
   * the stack is empty), and the stack reported is the one the scan had
   * just before it.
   */
  lemma {:induction false} RunMismatch(s: string, lo: nat, hi: nat, stack: seq<Open>)
    requires lo <= hi <= |s|
    requires Run(s, lo, hi, stack).Mismatch?
    ensures var m := Run(s, lo, hi, stack);
      && lo <= m.at < hi && IsCloser(s[m.at])
      && !(|m.stack| > 0 && Matches(m.stack[|m.stack| - 1].ch, s[m.at]))
      && Run(s, lo, m.at, stack) == Running(m.stack)
    decreases hi
  {
    if Run(s, lo, hi - 1, stack).Mismatch? {
      RunMismatch(s, lo, hi - 1, stack);
    }
  }

  lemma ScanMismatch(s: string)
    requires ScanAll(s).Mismatch?
    ensures var m := ScanAll(s);
      && m.at < |s| && IsCloser(s[m.at])
      && !(|m.stack| > 0 && Matches(m.stack[|m.stack| - 1].ch, s[m.at]))
      && Run(s, 0, m.at, []) == Running(m.stack)
  {
    RunMismatch(s, 0, |s|, []);
  }

  /** Well-nested text: plain characters and bracket groups around well-nested text. */
  datatype Tree = Text(c: char) | Group(open: char, body: seq<Tree>)

  ghost predicate WellNested(t: Tree)
  {
    match t
    case Text(c) => !IsOpener(c) && !IsCloser(c)
    case Group(o, body) => IsOpener(o) && forall u | u in body :: WellNested(u)
  }

  function Flatten(t: Tree): string
  {
    match t
    case Text(c) => [c]
    case Group(o, body) => [o] + FlattenAll(body) + [if IsOpener(o) then Partner(o) else o]
  }

  function FlattenAll(ts: seq<Tree>): string
  {
    if ts == [] then [] else Flatten(ts[0]) + FlattenAll(ts[1..])
  }

  /** Where a group's text sits: its opener, its body, then its closer. */
  lemma GroupText(s: string, lo: nat, hi: nat, o: char, body: seq<Tree>)
    requires lo <= hi <= |s| && IsOpener(o) && s[lo..hi] == Flatten(Group(o, body))
    ensures hi - lo >= 2 && s[lo] == o && s[hi - 1] == Partner(o)
    ensures s[lo + 1 .. hi - 1] == FlattenAll(body)
  {
    var f, x := s[lo..hi], FlattenAll(body);
    assert f == [o] + x + [Partner(o)];
    assert s[lo] == f[0] && s[hi - 1] == f[|f| - 1];
    var m := s[lo + 1 .. hi - 1];
    assert forall j | 0 <= j < |m| :: m[j] == f[j + 1];
    assert m == x;
  }

  /** Scanning one character is one step. */
  lemma RunOne(s: string, i: nat, stack: seq<Open>)
    requires i < |s|
    ensures Run(s, i, i + 1, stack) == Step(s, i, stack)
  {
  }

  lemma {:induction false} RunTree(s: string, lo: nat, hi: nat, t: Tree, stack: seq<Open>)
    requires lo <= hi <= |s| && s[lo..hi] == Flatten(t) && WellNested(t)
    ensures Run(s, lo, hi, stack) == Running(stack)
    decreases t, 1
  {
    match t
    case Text(c) =>
      assert s[lo] == c;
    case Group(o, body) =>
      GroupText(s, lo, hi, o, body);
      var inner := stack + [Open(o, lo)];
      RunSplit(s, lo, lo + 1, hi, stack);
      RunOne(s, lo, stack);
      RunForest(s, lo + 1, hi - 1, body, inner);
      RunSplit(s, lo + 1, hi - 1, hi, inner);
      RunOne(s, hi - 1, inner);
      assert inner[..|inner| - 1] == stack;
  }

  lemma {:induction false} RunForest(s: string, lo: nat, hi: nat, ts: seq<Tree>, stack: seq<Open>)
    requires lo <= hi <= |s| && s[lo..hi] == FlattenAll(ts)
    requires forall u | u in ts :: WellNested(u)
    ensures Run(s, lo, hi, stack) == Running(stack)
    decreases ts, 0
  {
    if ts != [] {
      var mid := lo + |Flatten(ts[0])|;
      var f := s[lo..hi];
      assert f == Flatten(ts[0]) + FlattenAll(ts[1..]);
      assert s[lo..mid] == f[..mid - lo] == Flatten(ts[0]);
      assert s[mid..hi] == f[mid - lo..] == FlattenAll(ts[1..]);
      RunSplit(s, lo, mid, hi, stack);
      RunTree(s, lo, mid, ts[0], stack);
      RunForest(s, mid, hi, ts[1..], stack);
    }
  }

  /** Well-nested text scans to the end with no mismatch and nothing left unclosed. */
  lemma BalancedScan(ts: seq<Tree>)
    requires forall u | u in ts :: WellNested(u)
    ensures ScanAll(FlattenAll(ts)) == Running([])
  {
    var s := FlattenAll(ts);
    assert s[0..|s|] == s;
    RunForest(s, 0, |s|, ts, []);
  }

  /**
   * The context printed for an entry at index `i` of a text of length `len`:
   * `slice(max(0, i - 40), min(len, i + 40))`.
   */
  function ContextWindow(len: nat, i: nat): (w: (nat, nat))
    ensures w.0 <= i && w.0 + 40 >= i && w.1 <= len
    ensures i < len ==> w.0 <= i < w.1 && w.1 - w.0 <= 80
  {
    (if i >= 40 then i - 40 else 0, if len <= i + 40 then len else i + 40)
  }

  /** `s.slice(lo, hi)`: empty when `lo` is past `hi`. */
  function Slice(s: string, lo: nat, hi: nat): (t: string)
    requires hi <= |s|
    ensures lo <= hi ==> t == s[lo..hi]
    ensures lo > hi ==> t == []
  {
    if lo <= hi then s[lo..hi] else []
  }

  /**
   * The whole script over the text `s`: the scan, the unclosed openers
   * (each with its character and index), their count, and the context around
   * each one, in stack order.
   */
  method FindUnclosed(s: string) returns (mismatch: Option<nat>, stack: seq<Open>, unclosed: nat, contexts: seq<string>)
    ensures stack == ScanAll(s).stack
    ensures unclosed == |ScanAll(s).stack|
    ensures mismatch.Some? <==> ScanAll(s).Mismatch?
    ensures mismatch.Some? ==> mismatch.value == ScanAll(s).at
    ensures |contexts| == unclosed
    ensures forall k | 0 <= k < |contexts| ::
      var w := ContextWindow(|s|, ScanAll(s).stack[k].at);
      contexts[k] == Slice(s, w.0, w.1)
  {
    stack, mismatch := Scan(s);
    unclosed := |stack|;
    contexts := [];
    var k := 0;
    while k < |stack|
      invariant k <= |stack| && |contexts| == k
      invariant forall j | 0 <= j < k ::
        contexts[j] == Slice(s, ContextWindow(|s|, stack[j].at).0, ContextWindow(|s|, stack[j].at).1)
    {
      var w := ContextWindow(|s|, stack[k].at);
      contexts := contexts + [Slice(s, w.0, w.1)];
      k := k + 1;
    }
  }
}
