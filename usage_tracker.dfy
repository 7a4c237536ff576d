/** `UsageTracker`: a bounded first-in-first-out history of recent values per metric key. */
module Tracker {

  /** The last `n` elements of `s` (all of `s` when it is shorter). */
  function Window(s: seq<real>, n: nat): (w: seq<real>)
    ensures |w| == if |s| <= n then |s| else n
    ensures w == s[|s| - |w|..]
  {
    if |s| <= n then s else s[|s| - n..]
  }

  /** `deque(maxlen=n).append(v)`: the value joins at the newest end and, once the deque
      holds `n` values, the oldest one leaves. */
  function Push(s: seq<real>, v: real, n: nat): (r: seq<real>)
    requires |s| <= n
    ensures |r| <= n
    ensures |s| < n ==> r == s + [v]
    ensures |s| == n && n > 0 ==> r == s[1..] + [v]
    ensures |s| == n && n == 0 ==> r == []
  {
    Window(s + [v], n)
  }

  /** The series for `name`: the stored one, or empty for a name never recorded. */
  function Series(data: map<string, seq<real>>, name: string): (s: seq<real>)
    ensures name !in data ==> s == []
    ensures name in data ==> s == data[name]
  {
    if name in data then data[name] else []
  }

  /** Appending the values one at a time, oldest first. */
  function PushAll(s: seq<real>, vs: seq<real>, n: nat): (r: seq<real>)
    requires |s| <= n
    ensures |r| <= n
    decreases |vs|
  {
    if vs == [] then s else PushAll(Push(s, vs[0], n), vs[1..], n)
  }

  /** Trimming to a window before appending does not change what the final window holds. */
  lemma WindowAppend(s: seq<real>, v: real, n: nat)
    ensures Window(Window(s, n) + [v], n) == Window(s + [v], n)
  {
    if |s| > n {
      var w := Window(s, n);
      assert w + [v] == (s + [v])[|s| - n..];
    }
  }

  /** After appending `vs` to a series, it holds the last `n` values of everything appended,
      in their original order. */
  lemma {:induction false} PushAllWindow(s: seq<real>, vs: seq<real>, n: nat)
    requires |s| <= n
    ensures PushAll(s, vs, n) == Window(s + vs, n)
    decreases |vs|
  {
    if vs == [] {
      assert s + vs == s;
    } else {
      var s' := Push(s, vs[0], n);
      PushAllWindow(s', vs[1..], n);
      assert s' == Window(s + [vs[0]], n);
      PushAllShift(s + [vs[0]], vs[1..], n);
      assert (s + [vs[0]]) + vs[1..] == s + vs;
    }
  }

  /** Windowing the prefix first gives the same final window. */
  lemma {:induction false} PushAllShift(x: seq<real>, vs: seq<real>, n: nat)
    ensures Window(Window(x, n) + vs, n) == Window(x + vs, n)
    decreases |vs|
  {
    if vs == [] {
      assert Window(x, n) + vs == Window(x, n);
      assert x + vs == x;
    } else {
      var last := vs[|vs| - 1];
      var init := vs[..|vs| - 1];
      assert vs == init + [last];
      PushAllShift(x, init, n);
      assert Window(x, n) + vs == (Window(x, n) + init) + [last];
      assert x + vs == (x + init) + [last];
      WindowAppend(Window(x, n) + init, last, n);
      WindowAppend(x + init, last, n);
    }
  }

  /** Recording `vs` under a fresh name leaves the last `min(|vs|, n)` of them, oldest first. */
  lemma RecordFreshName(vs: seq<real>, n: nat)
    ensures PushAll([], vs, n) == Window(vs, n)
    ensures |PushAll([], vs, n)| == if |vs| <= n then |vs| else n
  {
    PushAllWindow([], vs, n);
    assert [] + vs == vs;
  }

  class UsageTracker {
    /** `_max_size`: the bound on each series. */
    const maxSize: nat
    /** `_data`: one series per recorded name, oldest value first. */
    var data: map<string, seq<real>>

    /** Every series respects the bound. */
    ghost predicate Valid()
      reads this
    {
      forall k :: k in data ==> |data[k]| <= maxSize
    }

    /** `UsageTracker(max_size)`: no names recorded yet. */
    constructor(maxSize: nat := 20)
      ensures this.maxSize == maxSize && data == map[]
      ensures Valid()
    {
      this.maxSize := maxSize;
      data := map[];
    }

    /** `record`: a name not seen before gets an empty bounded series, then the value is
        appended to the name's series. Every other series is left as it was. */
    method Record(name: string, value: real)
      requires Valid()
      modifies this
      ensures Valid()
      ensures data == old(data)[name := Push(Series(old(data), name), value, maxSize)]
      ensures data.Keys == old(data).Keys + {name}
      ensures forall k :: k in old(data) && k != name ==> data[k] == old(data)[k]
    {
      if name !in data {
        data := data[name := []];
      }
      data := data[name := Push(data[name], value, maxSize)];
    }

    /** `get_history`: a copy of the name's series, or the empty list for an unknown name. */
    method GetHistory(name: string) returns (h: seq<real>)
      ensures h == Series(data, name)
      ensures name !in data ==> h == []
    {
      if name in data {
        return data[name];
      }
      return [];
    }

    /** `all_history`: a copy of every series, under the recorded names. */
    method AllHistory() returns (m: map<string, seq<real>>)
      ensures m.Keys == data.Keys
      ensures forall k :: k in m ==> m[k] == Series(data, k)
    {
      m := map k | k in data :: data[k];
    }
  }

  /** `get_history` and `all_history` return `list(...)` copies, so a list handed out earlier
      does not see later records. In this model a series is a `seq`, a value that nothing can
      alias, so the first half holds by construction; the method records that promise and
      states how the tracker itself moves on. */
  method HistoryIsACopy(t: UsageTracker, name: string, v: real) returns (before: seq<real>, after: seq<real>)
    requires t.Valid()
    modifies t
    ensures before == Series(old(t.data), name)
    ensures after == Push(before, v, t.maxSize)
  {
    before := t.GetHistory(name);
    t.Record(name, v);
    after := t.GetHistory(name);
  }
}
