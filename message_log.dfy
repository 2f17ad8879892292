/** The bounded message log of the merge gate (ExternalState.Message).
    Every msg call drops the oldest entry when the log already holds MORE
    than DropAbove entries and then appends one timestamped entry, so the
    log settles at Capacity = DropAbove + 1 entries. */
module MessageLog {

  /** msg drops the oldest entry only when the log is longer than this. */
  const DropAbove: nat := 50

  /** The length the log settles at. */
  const Capacity: nat := 51

  /** One log entry: the timestamp and the expanded text, as "%v: %v". */
  function Entry(stamp: string, text: string): string
  {
    stamp + ": " + text
  }

  /** The log after one msg call whose clock reading is `stamp`. */
  function Logged(log: seq<string>, stamp: string, text: string): seq<string>
  {
    (if |log| > DropAbove then log[1..] else log) + [Entry(stamp, text)]
  }

  /** The entries `texts` would get when stamped with consecutive clock
      readings starting at tick `t`: the i-th text gets the reading of
      tick t + i. */
  function Stamped(clock: nat -> string, t: nat, texts: seq<string>): (r: seq<string>)
    ensures |r| == |texts|
  {
    seq(|texts|, i requires 0 <= i < |texts| => Entry(clock(t + i), texts[i]))
  }

  /** The last text is stamped last, with the reading of its own tick. */
  lemma StampedSnoc(clock: nat -> string, t: nat, texts: seq<string>)
    requires texts != []
    ensures var n := |texts| - 1;
      Stamped(clock, t, texts) == Stamped(clock, t, texts[..n]) + [Entry(clock(t + n), texts[n])]
  {
  }

  /** A single text is stamped with the reading of tick t. */
  lemma StampedOne(clock: nat -> string, t: nat, text: string)
    ensures Stamped(clock, t, [text]) == [Entry(clock(t), text)]
  {
  }

  /** A record of entries stamped from tick t, extended by texts stamped
      from the next tick on, is the record stamped from t for all the
      texts. */
  lemma StampedGrow(clock: nat -> string, base: seq<string>, t: nat, done: seq<string>, u: nat, more: seq<string>)
    requires u == t + |done|
    ensures (base + Stamped(clock, t, done)) + Stamped(clock, u, more) == base + Stamped(clock, t, done + more)
  {
  }

  /** The log after one msg call per element of `texts`, in order, the k-th
      call reading the clock at tick t + k. */
  function LogAll(log: seq<string>, clock: nat -> string, t: nat, texts: seq<string>): seq<string>
    decreases |texts|
  {
    if texts == [] then log
    else
      var n := |texts| - 1;
      Logged(LogAll(log, clock, t, texts[..n]), clock(t + n), texts[n])
  }

  function Min(a: int, b: int): int
  {
    if a <= b then a else b
  }

  /** One msg call appends exactly one entry at the end, drops at most the
      single oldest entry, drops it exactly when the log was longer than
      DropAbove, and keeps the retained entries in their order. */
  lemma LoggedShape(log: seq<string>, stamp: string, text: string)
    ensures var r := Logged(log, stamp, text);
      && |r| == (if |log| > DropAbove then |log| else |log| + 1)
      && r[|r| - 1] == Entry(stamp, text)
      && r[..|r| - 1] == log[|log| + 1 - |r|..]
      && (|log| <= Capacity ==> |r| <= Capacity)
  {
  }

  /** Logging a batch and then another is logging their concatenation. */
  lemma {:induction false} LogAllAppend(log: seq<string>, clock: nat -> string, t: nat,
                                        xs: seq<string>, ys: seq<string>)
    ensures LogAll(LogAll(log, clock, t, xs), clock, t + |xs|, ys) == LogAll(log, clock, t, xs + ys)
    decreases |ys|
  {
    if ys == [] {
      assert xs + ys == xs;
    } else {
      var n := |ys| - 1;
      LogAllAppend(log, clock, t, xs, ys[..n]);
      assert (xs + ys)[..|xs| + n] == xs + ys[..n];
      assert (xs + ys)[|xs| + n] == ys[n];
    }
  }

  /** The length after any number of msg calls: a log of at most DropAbove
      entries grows by one per call until it reaches Capacity and then stays
      there; a longer log keeps its length. */
  lemma {:induction false} LogAllLength(log: seq<string>, clock: nat -> string, t: nat, texts: seq<string>)
    ensures |LogAll(log, clock, t, texts)|
         == if |log| > DropAbove then |log| else Min(|log| + |texts|, Capacity)
    decreases |texts|
  {
    if texts != [] {
      LogAllLength(log, clock, t, texts[..|texts| - 1]);
    }
  }

  /** The log never grows past Capacity once it is within it. */
  lemma LogAllBounded(log: seq<string>, clock: nat -> string, t: nat, texts: seq<string>)
    requires |log| <= Capacity
    ensures |LogAll(log, clock, t, texts)| <= Capacity
  {
    LogAllLength(log, clock, t, texts);
  }

  /** After any number of msg calls the log is the most recent part of the
      old log followed by the new stamped entries, in order: nothing is
      reordered and only the oldest entries are dropped. */
  lemma {:induction false} LogAllKeepsNewest(log: seq<string>, clock: nat -> string, t: nat, texts: seq<string>)
    ensures var r := LogAll(log, clock, t, texts);
      && |r| <= |log| + |texts|
      && r == (log + Stamped(clock, t, texts))[|log| + |texts| - |r|..]
    decreases |texts|
  {
    var r := LogAll(log, clock, t, texts);
    if texts == [] {
      assert Stamped(clock, t, texts) == [];
      assert log + [] == log;
    } else {
      var n := |texts| - 1;
      var prev := LogAll(log, clock, t, texts[..n]);
      LogAllKeepsNewest(log, clock, t, texts[..n]);
      var all := log + Stamped(clock, t, texts[..n]);
      var e := Entry(clock(t + n), texts[n]);
      StampedSnoc(clock, t, texts);
      assert log + Stamped(clock, t, texts) == all + [e];
      var k := |all| - |prev|;
      assert prev == all[k..];
      var kept := if |prev| > DropAbove then prev[1..] else prev;
      assert r == kept + [e];
      if |prev| > DropAbove {
        assert kept == all[k + 1..];
        assert r == (all + [e])[k + 1..];
      } else {
        assert r == (all + [e])[k..];
      }
    }
  }

  /** The entries a log holds when it started empty and `history` is every
      entry ever appended: the newest Capacity of them, oldest first. */
  function Window(history: seq<string>): (r: seq<string>)
    ensures |r| == Min(|history|, Capacity)
  {
    history[|history| - Min(|history|, Capacity)..]
  }

  /** One msg call on such a log is the window of the longer history. */
  lemma WindowLogged(history: seq<string>, stamp: string, text: string)
    ensures Logged(Window(history), stamp, text) == Window(history + [Entry(stamp, text)])
  {
    var h := history + [Entry(stamp, text)];
    if |history| > DropAbove {
      assert Window(history)[1..] + [Entry(stamp, text)] == h[|h| - Capacity..];
    } else {
      assert Window(history) == history;
      assert h[|h| - |h|..] == h;
    }
  }

  /** The two descriptions agree: msg calls on an empty log leave exactly
      the window of the stamped entries. */
  lemma LogAllFromEmpty(clock: nat -> string, t: nat, texts: seq<string>)
    ensures LogAll([], clock, t, texts) == Window(Stamped(clock, t, texts))
  {
    LogAllLength([], clock, t, texts);
    LogAllKeepsNewest([], clock, t, texts);
    assert [] + Stamped(clock, t, texts) == Stamped(clock, t, texts);
  }

  /** The window view and the step-by-step view agree on any stretch of
      msg calls: logging `texts` from tick t on the window of a history
      gives the window of that history extended by the stamped entries. */
  lemma {:induction false} WindowLogAll(history: seq<string>, clock: nat -> string, t: nat, texts: seq<string>)
    ensures LogAll(Window(history), clock, t, texts) == Window(history + Stamped(clock, t, texts))
    decreases |texts|
  {
    if texts == [] {
      assert history + Stamped(clock, t, texts) == history;
    } else {
      var n := |texts| - 1;
      WindowLogAll(history, clock, t, texts[..n]);
      var before := history + Stamped(clock, t, texts[..n]);
      WindowLogged(before, clock(t + n), texts[n]);
      StampedSnoc(clock, t, texts);
      assert before + [Entry(clock(t + n), texts[n])] == history + Stamped(clock, t, texts);
    }
  }
}
