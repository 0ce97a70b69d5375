/** The events an orchestrated run produces, and the facts about release
    stacks that the lifecycle proofs rely on. */
module Traces {
  import opened Naming
  import Customize

  /** The host resources `main` acquires and releases. */
  datatype Resource =
    | LoopDevice(name: string)                    // losetup binding, released by detachLoopDevice
    | MountDirectory(path: string)                // os.MkdirTemp, released by os.RemoveAll
    | Mounted(partition: string, target: string)  // mount, released by unmountLoopDevice

  /** The external calls `main` makes on its way forward. */
  datatype Step =
    | ReadConfig(path: string)
    | Download(url: string, destination: string)
    | ConvertToRaw(source: string, destination: string)
    | AttachImage(image: string)
    | MakeMountDirectory
    | MountPartition(partition: string, target: string)
    | Guest(stage: Customize.Stage)

  /** One entry of a run's trace. A release records whether its action
      reported an error; `main` discards that error. */
  datatype Event =
    | Call(step: Step)
    | Acquire(resource: Resource)
    | Release(resource: Resource, succeeded: bool)

  /** The resources acquired in `trace`, in order. */
  function Acquired(trace: seq<Event>): seq<Resource>
  {
    if trace == [] then []
    else (if trace[0].Acquire? then [trace[0].resource] else []) + Acquired(trace[1..])
  }

  /** The resources released in `trace`, in order. */
  function Released(trace: seq<Event>): seq<Resource>
  {
    if trace == [] then []
    else (if trace[0].Release? then [trace[0].resource] else []) + Released(trace[1..])
  }

  lemma ConcatAssoc<T>(x: seq<T>, y: seq<T>, z: seq<T>)
    ensures x + (y + z) == (x + y) + z
  {
  }

  lemma {:induction false} AcquiredAppend(a: seq<Event>, b: seq<Event>)
    ensures Acquired(a + b) == Acquired(a) + Acquired(b)
  {
    if a == [] {
      assert a + b == b;
    } else {
      assert (a + b)[0] == a[0];
      assert (a + b)[1..] == a[1..] + b;
      AcquiredAppend(a[1..], b);
      if a[0].Acquire? {
        ConcatAssoc([a[0].resource], Acquired(a[1..]), Acquired(b));
      } else {
        assert Acquired(a + b) == Acquired(a[1..] + b);
      }
    }
  }

  lemma {:induction false} ReleasedAppend(a: seq<Event>, b: seq<Event>)
    ensures Released(a + b) == Released(a) + Released(b)
  {
    if a == [] {
      assert a + b == b;
    } else {
      assert (a + b)[0] == a[0];
      assert (a + b)[1..] == a[1..] + b;
      ReleasedAppend(a[1..], b);
      if a[0].Release? {
        ConcatAssoc([a[0].resource], Released(a[1..]), Released(b));
      } else {
        assert Released(a + b) == Released(a[1..] + b);
      }
    }
  }

  /** A trace with no release event releases nothing. */
  lemma {:induction false} NoReleaseEvents(trace: seq<Event>)
    requires forall i :: 0 <= i < |trace| ==> !trace[i].Release?
    ensures Released(trace) == []
  {
    if trace != [] {
      NoReleaseEvents(trace[1..]);
    }
  }

  /** A trace made only of calls acquires and releases nothing. */
  lemma {:induction false} CallsOnly(trace: seq<Event>)
    requires forall i :: 0 <= i < |trace| ==> trace[i].Call?
    ensures Acquired(trace) == [] && Released(trace) == []
  {
    if trace != [] {
      CallsOnly(trace[1..]);
    }
  }

  /** The order in which a LIFO stack hands back what was pushed onto it. */
  function Reverse<T>(s: seq<T>): (r: seq<T>)
    ensures |r| == |s|
    ensures forall i :: 0 <= i < |s| ==> r[i] == s[|s| - 1 - i]
  {
    if s == [] then [] else [s[|s| - 1]] + Reverse(s[..|s| - 1])
  }

  // Reversal of the short stacks a run can hold.

  lemma ReverseOne<T>(a: T)
    ensures Reverse([a]) == [a]
  {
  }

  lemma ReverseTwo<T>(a: T, b: T)
    ensures Reverse([a, b]) == [b, a]
  {
  }

  lemma ReverseThree<T>(a: T, b: T, c: T)
    ensures Reverse([a, b, c]) == [c, b, a]
  {
  }

  /** Reversal keeps every element with its multiplicity. */
  lemma {:induction false} ReverseMultiset<T>(s: seq<T>)
    ensures multiset(Reverse(s)) == multiset(s)
  {
    if s != [] {
      ReverseMultiset(s[..|s| - 1]);
      assert s == s[..|s| - 1] + [s[|s| - 1]];
    }
  }

  /** No element appears twice. */
  predicate Distinct<T(==)>(s: seq<T>)
  {
    forall i, j :: 0 <= i < j < |s| ==> s[i] != s[j]
  }

  /** In a sequence without repetitions every element occurs exactly once. */
  lemma {:induction false} DistinctOccursOnce<T>(s: seq<T>)
    requires Distinct(s)
    ensures forall x :: multiset(s)[x] == if x in s then 1 else 0
  {
    if s != [] {
      var init := s[..|s| - 1];
      assert Distinct(init);
      DistinctOccursOnce(init);
      assert s == init + [s[|s| - 1]];
      assert s[|s| - 1] !in init;
    }
  }

  /** `a` can exist only while `b` does: a mount needs its target directory
      and the loop device whose first partition it mounts. */
  predicate DependsOn(a: Resource, b: Resource)
  {
    && a.Mounted?
    && (b == MountDirectory(a.target) || (b.LoopDevice? && a.partition == PartitionName(b.name)))
  }

  /** Nothing is acquired before a resource it depends on. */
  predicate AcquisitionOrdered(s: seq<Resource>)
  {
    forall i, j :: 0 <= i < j < |s| ==> !DependsOn(s[i], s[j])
  }

  /** Nothing is released before a resource that depends on it: the release
      of a directory or a device is never attempted before that of a mount
      on it. This orders attempts only; whether an attempt succeeded is what
      `ReleasesSafe` looks at. */
  predicate ReleaseOrdered(s: seq<Resource>)
  {
    forall i, j :: 0 <= i < j < |s| ==> !DependsOn(s[j], s[i])
  }

  /** Unwinding a stack filled in dependency order releases in dependency
      order. */
  lemma ReverseOfOrderedAcquisition(s: seq<Resource>)
    requires AcquisitionOrdered(s)
    ensures ReleaseOrdered(Reverse(s))
  {
    var r := Reverse(s);
    forall i, j | 0 <= i < j < |r|
      ensures !DependsOn(r[j], r[i])
    {
      assert r[j] == s[|s| - 1 - j] && r[i] == s[|s| - 1 - i];
    }
  }

  /** The resources held after one event: an acquisition adds its resource,
      and only a release that succeeded removes it. */
  function AfterEvent(held: set<Resource>, e: Event): set<Resource>
  {
    match e
    case Call(_) => held
    case Acquire(r) => held + {r}
    case Release(r, succeeded) => if succeeded then held - {r} else held
  }

  /** The resources held after `trace`, starting from `held`. */
  function HeldAfter(trace: seq<Event>, held: set<Resource>): set<Resource>
  {
    if trace == [] then held else HeldAfter(trace[1..], AfterEvent(held, trace[0]))
  }

  /** No release in `trace` is attempted while a resource that depends on it
      is still held: a directory is not removed, nor a device detached,
      while a mount on it is still in place. */
  predicate ReleasesSafe(trace: seq<Event>, held: set<Resource>)
  {
    if trace == [] then true
    else
      && (trace[0].Release? ==> forall m :: m in held ==> !DependsOn(m, trace[0].resource))
      && ReleasesSafe(trace[1..], AfterEvent(held, trace[0]))
  }

  lemma {:induction false} HeldAfterAppend(a: seq<Event>, b: seq<Event>, held: set<Resource>)
    ensures HeldAfter(a + b, held) == HeldAfter(b, HeldAfter(a, held))
    ensures ReleasesSafe(a + b, held) <==> ReleasesSafe(a, held) && ReleasesSafe(b, HeldAfter(a, held))
  {
    if a == [] {
      assert a + b == b;
    } else {
      assert (a + b)[0] == a[0];
      assert (a + b)[1..] == a[1..] + b;
      HeldAfterAppend(a[1..], b, AfterEvent(held, a[0]));
    }
  }

  /** A trace without releases is safe, and afterwards holds what it started
      with plus what it acquired. */
  lemma {:induction false} HeldAfterNoRelease(trace: seq<Event>, held: set<Resource>)
    requires forall i :: 0 <= i < |trace| ==> !trace[i].Release?
    ensures ReleasesSafe(trace, held)
    ensures forall m :: m in HeldAfter(trace, held) <==> m in held || m in Acquired(trace)
  {
    if trace != [] {
      HeldAfterNoRelease(trace[1..], AfterEvent(held, trace[0]));
    }
  }
}
