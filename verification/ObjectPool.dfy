/** The fixed-size object pool: sorted objects with in-use flags, and a stack of free indices. */
module ObjectPool {
  import opened Basics

  type Address = nat
  const NULL: Address := 0

  // ----- what a pool's users see -----

  datatype Event =
    | Allocated(obj: Address)
    | Exhausted
    | Freed(obj: Address)
    | Refused(obj: Address)   // free of something that is not outstanding
    | Reset

  /** The objects handed out and not returned. */
  function Outstanding(trace: seq<Event>): set<Address> {
    if trace == [] then {}
    else
      var before := Outstanding(trace[..|trace| - 1]);
      match trace[|trace| - 1]
      case Allocated(obj) => before + {obj}
      case Freed(obj) => before - {obj}
      case Reset => {}
      case _ => before
  }

  /** Every answer the pool gave was right for the moment it gave it. */
  ghost predicate Legal(all: set<Address>, trace: seq<Event>) {
    trace == []
    || (var before := Outstanding(trace[..|trace| - 1]);
        && Legal(all, trace[..|trace| - 1])
        && match trace[|trace| - 1]
           case Allocated(obj) => obj in all && obj !in before
           case Exhausted => before == all
           case Freed(obj) => obj in before
           case Refused(obj) => obj !in before
           case Reset => true)
  }

  /** An object allocated twice was returned in between. */
  lemma {:induction false} ReallocatedOnlyAfterReturn(all: set<Address>, trace: seq<Event>, i: nat, j: nat,
                                                      obj: Address)
    requires Legal(all, trace) && i < j < |trace| && trace[i] == trace[j] == Allocated(obj)
    ensures exists k :: i < k < j && (trace[k] == Freed(obj) || trace[k].Reset?)
  {
    LegalPrefix(all, trace, j + 1);
    assert trace[..j + 1][..j] == trace[..j];
    if forall k | i < k < j :: trace[k] != Freed(obj) && !trace[k].Reset? {
      StaysOutstanding(trace, i, j, obj);
    }
  }

  lemma {:induction false} LegalPrefix(all: set<Address>, trace: seq<Event>, n: nat)
    requires Legal(all, trace) && n <= |trace|
    ensures Legal(all, trace[..n])
    decreases |trace|
  {
    if n == |trace| {
      assert trace[..n] == trace;
    } else {
      LegalPrefix(all, trace[..|trace| - 1], n);
      assert trace[..|trace| - 1][..n] == trace[..n];
    }
  }

  lemma {:induction false} StaysOutstanding(trace: seq<Event>, i: nat, j: nat, obj: Address)
    requires i < j <= |trace| && trace[i] == Allocated(obj)
    requires forall k | i < k < j :: trace[k] != Freed(obj) && !trace[k].Reset?
    ensures obj in Outstanding(trace[..j])
    decreases j
  {
    assert trace[..j][..j - 1] == trace[..j - 1];
    if j > i + 1 { StaysOutstanding(trace, i, j - 1, obj); }
  }

  // ----- the free stack -----

  ghost predicate Distinct(s: seq<nat>) {
    forall i, j :: 0 <= i < j < |s| ==> s[i] != s[j]
  }

  function Below(n: nat): (r: set<nat>)
    ensures forall k: nat :: k in r <==> k < n
    ensures |r| == n
  {
    if n == 0 then {} else Below(n - 1) + {n - 1}
  }

  function Elements(s: seq<nat>): (r: set<nat>)
    ensures forall x: nat :: x in r <==> x in s
    ensures Distinct(s) ==> |r| == |s|
  {
    if s == [] then {}
    else
      assert s == s[..|s| - 1] + [s[|s| - 1]];
      Elements(s[..|s| - 1]) + {s[|s| - 1]}
  }

  lemma {:induction false} SubsetSize(a: set<nat>, b: set<nat>)
    requires a <= b
    ensures |a| <= |b|
  {
    if a != {} {
      var x :| x in a;
      SubsetSize(a - {x}, b - {x});
    }
  }

  /** The stack holds each free index once and nothing else. */
  ghost predicate Consistent(stack: seq<nat>, used: seq<bool>) {
    && Distinct(stack)
    && (forall x | x in stack :: x < |used| && !used[x])
    && (forall i: nat | i < |used| && !used[i] :: i in stack)
  }

  lemma FullIsConsistent(stack: seq<nat>, used: seq<bool>)
    requires |stack| == |used| && forall i: nat | i < |used| :: stack[i] == i && !used[i]
    ensures Consistent(stack, used)
  {
    forall i: nat | i < |used| ensures i in stack {
      assert stack[i] == i;
    }
  }

  lemma PopIsConsistent(stack: seq<nat>, used: seq<bool>)
    requires Consistent(stack, used) && stack != []
    ensures var init, i := stack[..|stack| - 1], stack[|stack| - 1];
            i < |used| && !used[i] && Consistent(init, used[i := true])
  {
    var init, i := stack[..|stack| - 1], stack[|stack| - 1];
    assert i in stack && forall x | x in init :: x in stack;
    forall k: nat | k < |used| && !used[i := true][k] ensures k in init {
      assert k in stack;
    }
  }

  /** By the pigeonhole, distinct indices that miss one leave room on the stack. */
  lemma RoomForMissing(stack: seq<nat>, n: nat, missing: nat)
    requires Distinct(stack) && (forall x | x in stack :: x < n) && missing < n && missing !in stack
    ensures |stack| < n
  {
    SubsetSize(Elements(stack) + {missing}, Below(n));
  }

  /** There is room to push an index that is in use. */
  lemma PushIsConsistent(stack: seq<nat>, used: seq<bool>, i: nat)
    requires Consistent(stack, used) && i < |used| && used[i]
    ensures |stack| < |used| && Consistent(stack + [i], used[i := false])
  {
    assert i !in stack;
    RoomForMissing(stack, |used|, i);
    forall k: nat | k < |used| && !used[i := false][k] ensures k in stack + [i] {
      if k != i { assert k in stack; }
    }
  }

  // ----- the flags -----

  ghost predicate Ascending(objects: seq<Address>) {
    forall i, j | 0 <= i < j < |objects| :: objects[i] < objects[j]
  }

  /** The flags mark exactly the outstanding objects. */
  ghost predicate Marks(objects: seq<Address>, used: seq<bool>, out: set<Address>) {
    && |objects| == |used|
    && (forall i | 0 <= i < |used| :: used[i] <==> objects[i] in out)
    && (forall a | a in out :: a in objects)
  }

  lemma MarkOne(objects: seq<Address>, used: seq<bool>, out: set<Address>, i: nat, v: bool)
    requires Ascending(objects) && Marks(objects, used, out) && i < |objects|
    ensures Marks(objects, used[i := v], if v then out + {objects[i]} else out - {objects[i]})
  {
    forall k | 0 <= k < |objects| ensures objects[k] == objects[i] <==> k == i { }
  }

  /** An empty stack means that everything is out. */
  lemma AllMarked(objects: seq<Address>, used: seq<bool>, out: set<Address>)
    requires Consistent([], used) && Marks(objects, used, out)
    ensures out == set a | a in objects
  {
    forall a | a in objects ensures a in out {
      var i: nat :| i < |objects| && objects[i] == a;
      assert used[i];
    }
  }

  class ObjectPool {
    const objects: array<Address>
    const used: array<bool>
    const freeStack: array<nat>
    var freeTop: nat
    ghost var trace: seq<Event>

    ghost predicate Valid()
      reads this, objects, used, freeStack
    {
      && objects != freeStack
      && freeTop <= freeStack.Length == used.Length
      && Consistent(freeStack[..freeTop], used[..])
      && Ascending(objects[..]) && NULL !in objects[..]
      && Marks(objects[..], used[..], Outstanding(trace))
      && Legal(All(), trace)
    }

    ghost function All(): set<Address>
      reads objects
    {
      set a | a in objects[..]
    }

    /** `sorted` are the addresses of the objects created, as std::sort leaves them. */
    constructor (sorted: seq<Address>)
      requires sorted != [] && NULL !in sorted && Ascending(sorted)
      ensures Valid() && trace == [] && freeTop == |sorted| && objects[..] == sorted
      ensures fresh(objects) && fresh(used) && fresh(freeStack)
    {
      objects := new Address[|sorted|](i requires 0 <= i < |sorted| => sorted[i]);
      used := new bool[|sorted|](_ => false);
      freeStack := new nat[|sorted|](i => i);
      freeTop, trace := |sorted|, [];
      new;
      assert objects[..] == sorted;
      FullIsConsistent(freeStack[..freeTop], used[..]);
    }

    method Alloc() returns (obj: Address)
      requires Valid()
      modifies used, this
      ensures Valid()
      ensures obj == NULL <==> Outstanding(old(trace)) == All()
      ensures trace == old(trace) + [if obj == NULL then Exhausted else Allocated(obj)]
    {
      if freeTop == 0 {
        AllMarked(objects[..], used[..], Outstanding(trace));
        trace := trace + [Exhausted];
        assert trace[..|trace| - 1] == old(trace);
        return NULL;
      }
      PopIsConsistent(freeStack[..freeTop], used[..]);
      freeTop := freeTop - 1;
      assert freeStack[..freeTop] == old(freeStack[..freeTop])[..freeTop];
      var index := freeStack[freeTop];
      MarkOne(objects[..], used[..], Outstanding(trace), index, true);
      used[index] := true;
      assert used[..] == old(used[..])[index := true];
      obj := objects[index];
      assert obj in objects[..];
      trace := trace + [Allocated(obj)];
      assert trace[..|trace| - 1] == old(trace);
    }

    /** First index whose object is not below `obj`: the binary search of std::lower_bound. */
    method LowerBound(obj: Address) returns (index: nat)
      requires Ascending(objects[..])
      ensures index <= objects.Length
      ensures forall i | 0 <= i < index :: objects[i] < obj
      ensures forall i | index <= i < objects.Length :: objects[i] >= obj
    {
      index := 0;
      var count := objects.Length;
      while count > 0
        invariant 0 <= count && index + count <= objects.Length
        invariant forall i | 0 <= i < index :: objects[i] < obj
        invariant forall i | index + count <= i < objects.Length :: objects[i] >= obj
      {
        var step := count / 2;
        assert objects[..][index + step] == objects[index + step];
        if objects[index + step] < obj {
          index, count := index + step + 1, count - step - 1;
        } else {
          count := step;
        }
      }
    }

    method Free(obj: Address) returns (ok: bool)
      requires Valid()
      modifies used, freeStack, this
      ensures Valid()
      ensures ok <==> obj in Outstanding(old(trace))
      ensures trace == old(trace) + [if ok then Freed(obj) else Refused(obj)]
    {
      ok := false;
      if obj != NULL {
        var index := LowerBound(obj);
        if index < objects.Length && objects[index] == obj && used[index] {
          PushIsConsistent(freeStack[..freeTop], used[..], index);
          MarkOne(objects[..], used[..], Outstanding(trace), index, false);
          used[index] := false;
          freeStack[freeTop] := index;
          freeTop := freeTop + 1;
          ok := true;
          assert freeStack[..freeTop] == old(freeStack[..freeTop]) + [index];
          assert used[..] == old(used[..])[index := false];
        }
      }
      trace := trace + [if ok then Freed(obj) else Refused(obj)];
      assert trace[..|trace| - 1] == old(trace);
    }

    method ResetAll()
      requires Valid()
      modifies used, freeStack, this
      ensures Valid() && freeTop == objects.Length && trace == old(trace) + [Reset]
    {
      for i := 0 to used.Length
        modifies used
        invariant forall k | 0 <= k < i :: !used[k]
      {
        used[i] := false;
      }
      for i := 0 to freeStack.Length
        modifies freeStack
        invariant forall k | 0 <= k < i :: freeStack[k] == k
      {
        freeStack[i] := i;
      }
      freeTop := freeStack.Length;
      trace := trace + [Reset];
      assert trace[..|trace| - 1] == old(trace);
      FullIsConsistent(freeStack[..freeTop], used[..]);
    }
  }
}
