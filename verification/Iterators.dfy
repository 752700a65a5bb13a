/**
 Iterator adapters whose consumer may stop early (`linode/helper/iterator.go` and
 `FrameworkDropDuplicatesIter` in `linode/helper/framework_util.go`).
 */
module Iterators {

  /** The body of a consuming loop: it records what it is given and decides whether to go on. */
  class Consumer<T> {
    var seen: seq<T>
    const more: seq<T> -> bool

    constructor (more: seq<T> -> bool)
      ensures seen == [] && this.more == more
    {
      seen := [];
      this.more := more;
    }

    method Yield(x: T) returns (go: bool)
      modifies this
      ensures seen == old(seen) + [x] && go == more(seen)
    {
      seen := seen + [x];
      go := more(seen);
    }
  }

  /** What a consumer has seen once it stopped or the sequence xs ended. */
  function Consume<T>(more: seq<T> -> bool, seen: seq<T>, xs: seq<T>): seq<T>
    decreases |xs|
  {
    if xs == [] then seen
    else if more(seen + [xs[0]]) then Consume(more, seen + [xs[0]], xs[1..])
    else seen + [xs[0]]
  }

  function Mapped<I, O>(values: seq<I>, transform: I -> O): (r: seq<O>)
    ensures |r| == |values| && forall i :: 0 <= i < |values| ==> r[i] == transform(values[i])
  {
    seq(|values|, i requires 0 <= i < |values| => transform(values[i]))
  }

  function Filtered<T>(values: seq<T>, isValid: T -> bool): seq<T> {
    if values == [] then []
    else (if isValid(values[0]) then [values[0]] else []) + Filtered(values[1..], isValid)
  }

  /** values without those whose key is in existing or occurred before. */
  function Deduplicated<T>(values: seq<T>, key: T -> string, existing: set<string>): seq<T>
    decreases |values|
  {
    if values == [] then []
    else if key(values[0]) in existing then Deduplicated(values[1..], key, existing)
    else [values[0]] + Deduplicated(values[1..], key, existing + {key(values[0])})
  }

  /** `Map`: the consumer sees the transformed values, up to where it stops. */
  method Map<I, O>(values: seq<I>, transform: I -> O, sink: Consumer<O>)
    modifies sink
    ensures sink.seen == Consume(sink.more, old(sink.seen), Mapped(values, transform))
  {
    for i := 0 to |values|
      invariant Consume(sink.more, sink.seen, Mapped(values[i..], transform))
                == Consume(sink.more, old(sink.seen), Mapped(values, transform))
    {
      assert Mapped(values[i..], transform) == [transform(values[i])] + Mapped(values[i + 1..], transform);
      var go := sink.Yield(transform(values[i]));
      if !go {
        return;
      }
    }
  }

  /** `Filter`: the consumer sees the valid values, up to where it stops. */
  method Filter<T>(values: seq<T>, isValid: T -> bool, sink: Consumer<T>)
    modifies sink
    ensures sink.seen == Consume(sink.more, old(sink.seen), Filtered(values, isValid))
  {
    for i := 0 to |values|
      invariant Consume(sink.more, sink.seen, Filtered(values[i..], isValid))
                == Consume(sink.more, old(sink.seen), Filtered(values, isValid))
    {
      assert values[i..][1..] == values[i + 1..];
      ghost var rest := Filtered(values[i + 1..], isValid);
      assert [] + rest == rest && ([values[i]] + rest)[1..] == rest;
      if !isValid(values[i]) {
        continue;
      }
      var go := sink.Yield(values[i]);
      if !go {
        return;
      }
    }
  }

  /** `FrameworkDropDuplicatesIter`: the consumer sees first occurrences, up to where it stops. */
  method DropDuplicates<T>(values: seq<T>, key: T -> string, sink: Consumer<T>)
    modifies sink
    ensures sink.seen == Consume(sink.more, old(sink.seen), Deduplicated(values, key, {}))
  {
    var existing: set<string> := {};
    for i := 0 to |values|
      invariant Consume(sink.more, sink.seen, Deduplicated(values[i..], key, existing))
                == Consume(sink.more, old(sink.seen), Deduplicated(values, key, {}))
    {
      assert values[i..][1..] == values[i + 1..];
      var entry := key(values[i]);
      if entry in existing {
        continue;
      }
      ghost var rest := Deduplicated(values[i + 1..], key, existing + {entry});
      assert ([values[i]] + rest)[1..] == rest;
      var go := sink.Yield(values[i]);
      if !go {
        return;
      }
      existing := existing + {entry};
    }
  }

  /** `MapSlice`: collects everything. */
  method MapSlice<I, O>(values: seq<I>, transform: I -> O) returns (r: seq<O>)
    ensures |r| == |values| && forall i :: 0 <= i < |values| ==> r[i] == transform(values[i])
  {
    var sink := new Consumer<O>(_ => true);
    Map(values, transform, sink);
    SeesAll(sink.more, [], Mapped(values, transform));
    r := sink.seen;
    assert r == Mapped(values, transform);
  }

  /** `FilterSlice`: collects the valid values. */
  method FilterSlice<T>(values: seq<T>, isValid: T -> bool) returns (r: seq<T>)
    ensures r == Filtered(values, isValid)
  {
    var sink := new Consumer<T>(_ => true);
    Filter(values, isValid, sink);
    SeesAll(sink.more, [], Filtered(values, isValid));
    r := sink.seen;
  }

  /** A consumer that never stops sees everything. */
  lemma {:induction false} SeesAll<T>(more: seq<T> -> bool, seen: seq<T>, xs: seq<T>)
    requires forall s :: more(s)
    ensures Consume(more, seen, xs) == seen + xs
    decreases |xs|
  {
    if xs == [] {
      assert seen + xs == seen;
    } else {
      SeesAll(more, seen + [xs[0]], xs[1..]);
      assert seen + [xs[0]] + xs[1..] == seen + xs;
    }
  }

  /** Filtering distributes over concatenation, so it keeps the order. */
  lemma {:induction false} FilteredAppend<T>(xs: seq<T>, ys: seq<T>, isValid: T -> bool)
    ensures Filtered(xs + ys, isValid) == Filtered(xs, isValid) + Filtered(ys, isValid)
  {
    if xs == [] {
      assert xs + ys == ys;
    } else {
      var head := if isValid(xs[0]) then [xs[0]] else [];
      calc {
        Filtered(xs + ys, isValid);
        { assert (xs + ys)[0] == xs[0] && (xs + ys)[1..] == xs[1..] + ys; }
        head + Filtered(xs[1..] + ys, isValid);
        { FilteredAppend(xs[1..], ys, isValid); }
        head + (Filtered(xs[1..], isValid) + Filtered(ys, isValid));
        head + Filtered(xs[1..], isValid) + Filtered(ys, isValid);
      }
    }
  }

  /** Filtering keeps exactly the valid values, and changes nothing when all are valid. */
  lemma {:induction false} FilteredMembers<T>(xs: seq<T>, isValid: T -> bool)
    ensures forall x :: x in Filtered(xs, isValid) <==> x in xs && isValid(x)
    ensures (forall i :: 0 <= i < |xs| ==> isValid(xs[i])) ==> Filtered(xs, isValid) == xs
  {
    if xs != [] {
      FilteredMembers(xs[1..], isValid);
      assert xs == [xs[0]] + xs[1..];
    }
  }

  /** A consumer that stops after k items sees exactly the first k. */
  lemma {:induction false} StopAfterK<T>(seen: seq<T>, xs: seq<T>, k: nat)
    requires |seen| < k
    ensures var all := seen + xs;
            Consume((s: seq<T>) => |s| < k, seen, xs) == if |all| <= k then all else all[..k]
    decreases |xs|
  {
    if xs == [] {
      assert seen + xs == seen;
    } else {
      assert seen + [xs[0]] + xs[1..] == seen + xs;
      if |seen| + 1 < k {
        StopAfterK(seen + [xs[0]], xs[1..], k);
      }
    }
  }

  /** Wherever a consumer stops, it has seen a prefix, and wanted more after each of its proper prefixes. */
  lemma {:induction false} SeesPrefix<T>(more: seq<T> -> bool, seen: seq<T>, xs: seq<T>)
    ensures seen <= Consume(more, seen, xs) <= seen + xs
    ensures forall k :: |seen| < k < |Consume(more, seen, xs)| ==> more((seen + xs)[..k])
    ensures Consume(more, seen, xs) != seen + xs ==> !more(Consume(more, seen, xs))
    decreases |xs|
  {
    if xs == [] {
      assert seen + xs == seen;
    } else {
      var next := seen + [xs[0]];
      assert next + xs[1..] == seen + xs;
      assert (seen + xs)[..|seen| + 1] == next;
      if more(next) {
        SeesPrefix(more, next, xs[1..]);
      }
    }
  }

  ghost predicate DistinctKeys<T>(values: seq<T>, key: T -> string) {
    forall i, j :: 0 <= i < j < |values| ==> key(values[i]) != key(values[j])
  }

  /** Deduplication yields only values it was given, and every given key outside `existing` exactly once. */
  lemma {:induction false} DeduplicatedKeys<T>(values: seq<T>, key: T -> string, existing: set<string>)
    ensures DistinctKeys(Deduplicated(values, key, existing), key)
    ensures forall x :: x in Deduplicated(values, key, existing) ==> x in values && key(x) !in existing
    ensures forall x :: x in values && key(x) !in existing ==>
              exists y :: y in Deduplicated(values, key, existing) && key(y) == key(x)
    decreases |values|
  {
    if values != [] {
      var head, tail := values[0], values[1..];
      assert values == [head] + tail;
      var out := Deduplicated(values, key, existing);
      if key(head) in existing {
        DeduplicatedKeys(tail, key, existing);
      } else {
        DeduplicatedKeys(tail, key, existing + {key(head)});
        var rest := Deduplicated(tail, key, existing + {key(head)});
        assert out == [head] + rest;
        forall x | x in values && key(x) !in existing ensures exists y :: y in out && key(y) == key(x) {
          if key(x) == key(head) {
            assert head in out;
          } else {
            var y :| y in rest && key(y) == key(x);
            assert y in out;
          }
        }
      }
    }
  }

  /** Appending values with known keys changes nothing; a new key is appended: first occurrences, in order. */
  lemma {:induction false} DeduplicatedAppend<T>(values: seq<T>, x: T, key: T -> string, existing: set<string>)
    ensures Deduplicated(values + [x], key, existing)
            == Deduplicated(values, key, existing)
               + (if key(x) in existing || exists i :: 0 <= i < |values| && key(values[i]) == key(x) then [] else [x])
    decreases |values|
  {
    if values == [] {
      assert values + [x] == [x] && [x][1..] == [];
    } else {
      var head, tail := values[0], values[1..];
      assert (values + [x])[1..] == tail + [x];
      if key(head) in existing {
        DeduplicatedAppend(tail, x, key, existing);
      } else {
        DeduplicatedAppend(tail, x, key, existing + {key(head)});
      }
      assert values == [head] + tail;
      if key(head) != key(x) && exists i :: 0 <= i < |values| && key(values[i]) == key(x) {
        var i :| 0 <= i < |values| && key(values[i]) == key(x);
        assert tail[i - 1] == values[i];
      }
      if i :| 0 <= i < |tail| && key(tail[i]) == key(x) {
        assert values[i + 1] == tail[i];
      }
      assert key(values[0]) == key(head);
    }
  }

  /** Values with distinct keys outside `existing` are all kept. */
  lemma {:induction false} DeduplicatedFixpoint<T>(values: seq<T>, key: T -> string, existing: set<string>)
    requires DistinctKeys(values, key) && forall i :: 0 <= i < |values| ==> key(values[i]) !in existing
    ensures Deduplicated(values, key, existing) == values
    decreases |values|
  {
    if values != [] {
      assert forall i :: 0 <= i < |values[1..]| ==> values[1..][i] == values[i + 1];
      DeduplicatedFixpoint(values[1..], key, existing + {key(values[0])});
    }
  }

  /** Deduplicating twice is deduplicating once. */
  lemma DeduplicationIdempotent<T>(values: seq<T>, key: T -> string)
    ensures Deduplicated(Deduplicated(values, key, {}), key, {}) == Deduplicated(values, key, {})
  {
    DeduplicatedKeys(values, key, {});
    DeduplicatedFixpoint(Deduplicated(values, key, {}), key, {});
  }
}
