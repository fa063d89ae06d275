/**
 * The C++ side of Swift's C++ interoperability support header: the aligned
 * allocation helpers, the owning container for an opaque Swift value, the
 * handle to a reference-counted Swift class instance, and the owning handle
 * to a Swift error.
 *
 * The runtime entry points the header calls (posix_memalign, free,
 * swift_retain, swift_release, swift_errorRetain, swift_errorRelease) are
 * modelled by the state they change: an `Allocator` holding the live aligned
 * blocks, and a `SwiftObjects` / `SwiftErrors` runtime holding the retain
 * count of every live object.  Each runtime also keeps, as ghost state, the
 * C++ values that currently hold one of its objects, so that an invariant
 * can say who owns what.
 */
module CxxInterop {

  /** sizeof(void *), fixed at 8: the model covers 64-bit targets only. */
  const PointerSize: nat := 8

  /** A raw C pointer: null, or the address of something. */
  datatype Pointer = Null | Ptr(addr: nat)

  // ---------------------------------------------------------------------
  // opaqueAlloc: the alignment handed to posix_memalign

  ghost predicate IsPowerOfTwo(n: nat)
    decreases n
  {
    n == 1 || (n > 1 && n % 2 == 0 && IsPowerOfTwo(n / 2))
  }

  /** POSIX requires the alignment of posix_memalign to be a power of two multiple of sizeof(void *). */
  ghost predicate PosixMemalignAccepts(align: nat) {
    IsPowerOfTwo(align) && align % PointerSize == 0
  }

  /** The alignment opaqueAlloc actually requests: the caller's, raised to at least the pointer size. */
  function EffectiveAlignment(align: nat): (r: nat)
    ensures r >= PointerSize && r >= align
    ensures r == align || r == PointerSize
  {
    if align < PointerSize then PointerSize else align
  }

  lemma {:induction false} LargePowerOfTwoIsPointerAligned(n: nat)
    requires IsPowerOfTwo(n) && n >= PointerSize
    ensures n % PointerSize == 0
    decreases n
  {
    if n / 2 >= PointerSize {
      LargePowerOfTwoIsPointerAligned(n / 2);
    } else {
      assert n / 2 == 4 by {
        assert !IsPowerOfTwo(5) && !IsPowerOfTwo(7);
        assert !IsPowerOfTwo(3);
      }
    }
  }

  /** Every power-of-two alignment, the natural alignments 1, 2 and 4 included, becomes one posix_memalign accepts. */
  lemma ClampedAlignmentIsAccepted(align: nat)
    requires IsPowerOfTwo(align)
    ensures PosixMemalignAccepts(EffectiveAlignment(align))
  {
    if align >= PointerSize {
      LargePowerOfTwoIsPointerAligned(align);
    } else {
      assert IsPowerOfTwo(4) && IsPowerOfTwo(2);
    }
  }

  /** Without the clamp, an alignment below the pointer size would be rejected by posix_memalign. */
  lemma SmallAlignmentIsRejected(align: nat)
    requires align < PointerSize
    ensures !PosixMemalignAccepts(align)
  {
  }

  // ---------------------------------------------------------------------
  // opaqueAlloc, opaqueFree and OpaqueStorage

  /** A block handed out by posix_memalign, with the size and alignment it was requested with. */
  datatype Allocation = Allocation(size: nat, align: nat)

  class Allocator {
    /** Blocks that posix_memalign handed out and free has not taken back, by address. */
    var live: map<nat, Allocation>
    /** The OpaqueStorage containers in existence. */
    ghost var storages: set<OpaqueStorage>

    /** Every container holds a live block, and no block has two containers. */
    ghost predicate Valid()
      reads this, storages
    {
      (forall s :: s in storages && s.storage.Ptr? ==> s.storage.addr in live) &&
      (forall s, t :: s in storages && t in storages && s != t && s.storage.Ptr? ==> s.storage != t.storage)
    }

    /** The addresses the containers own. */
    ghost function Owned(): set<nat>
      reads this, storages
    {
      set s | s in storages && s.storage.Ptr? :: s.storage.addr
    }

    constructor ()
      ensures Valid() && live == map[] && storages == {}
    {
      live := map[];
      storages := {};
    }

    /**
     * opaqueAlloc.  `granted` is what posix_memalign stores on success: a
     * block no one holds, and only for an alignment POSIX accepts.  On
     * failure the result stays null, since the return code is ignored.
     */
    method OpaqueAlloc(size: nat, align: nat, granted: Pointer) returns (r: Pointer)
      requires granted.Ptr? ==> granted.addr !in live && PosixMemalignAccepts(EffectiveAlignment(align))
      modifies this
      ensures r == granted
      ensures live == if granted.Ptr? then old(live)[granted.addr := Allocation(size, EffectiveAlignment(align))]
                      else old(live)
      ensures storages == old(storages)
    {
      var a := align;
      if a < PointerSize {
        a := PointerSize;
      }
      r := Null;
      if granted.Ptr? {
        r := granted;
        live := live[granted.addr := Allocation(size, a)];
      }
    }

    /** opaqueFree: the block goes back to the system. */
    method OpaqueFree(p: nat)
      requires p in live
      modifies this
      ensures live == old(live) - {p}
      ensures storages == old(storages)
    {
      live := live - {p};
    }
  }

  /** The container for an opaque Swift value, such as a resilient struct. */
  class OpaqueStorage {
    var storage: Pointer

    /** The default constructor holds nothing. */
    constructor Empty(heap: Allocator)
      requires heap.Valid()
      modifies heap
      ensures storage == Null
      ensures heap.Valid() && heap.storages == old(heap.storages) + {this}
      ensures heap.live == old(heap.live) && heap.Owned() == old(heap.Owned())
    {
      storage := Null;
      new;
      heap.storages := heap.storages + {this};
      assert heap.Owned() == old(heap.Owned()) by {
        forall a | a in heap.Owned() ensures a in old(heap.Owned()) {
          var s :| s in heap.storages && s.storage.Ptr? && s.storage.addr == a;
          assert s != this;
        }
      }
    }

    /** The sizing constructor owns a fresh block from opaqueAlloc, or nothing when the allocation failed. */
    constructor Sized(heap: Allocator, size: nat, alignment: nat, granted: Pointer)
      requires heap.Valid()
      requires granted.Ptr? ==> granted.addr !in heap.live && PosixMemalignAccepts(EffectiveAlignment(alignment))
      modifies heap
      ensures storage == granted
      ensures heap.Valid() && heap.storages == old(heap.storages) + {this}
      ensures heap.live == if granted.Ptr? then old(heap.live)[granted.addr := Allocation(size, EffectiveAlignment(alignment))]
                           else old(heap.live)
      ensures heap.Owned() == if granted.Ptr? then old(heap.Owned()) + {granted.addr} else old(heap.Owned())
    {
      var p := heap.OpaqueAlloc(size, alignment, granted);
      storage := p;
      new;
      heap.storages := heap.storages + {this};
      assert heap.Owned() == if granted.Ptr? then old(heap.Owned()) + {granted.addr} else old(heap.Owned()) by {
        forall a | a in heap.Owned()
          ensures a in old(heap.Owned()) || (granted.Ptr? && a == granted.addr)
        {
          var s :| s in heap.storages && s.storage.Ptr? && s.storage.addr == a;
          if s != this {
            assert s in old(heap.storages);
          }
        }
        assert granted.Ptr? ==> granted.addr in heap.Owned() by {
          assert this in heap.storages;
        }
        forall a | a in old(heap.Owned()) ensures a in heap.Owned() {
          var s :| s in old(heap.storages) && s.storage.Ptr? && s.storage.addr == a;
          assert s in heap.storages;
        }
      }
    }

    /** Move construction takes over the other container's block and leaves that one empty. */
    constructor Move(heap: Allocator, other: OpaqueStorage)
      requires heap.Valid() && other in heap.storages
      modifies heap, other
      ensures storage == old(other.storage) && other.storage == Null
      ensures heap.Valid() && heap.storages == old(heap.storages) + {this}
      ensures heap.live == old(heap.live) && heap.Owned() == old(heap.Owned())
    {
      storage := other.storage;
      new;
      other.storage := Null;
      heap.storages := heap.storages + {this};
      assert heap.Owned() == old(heap.Owned()) by {
        forall a | a in heap.Owned() ensures a in old(heap.Owned()) {
          var s :| s in heap.storages && s.storage.Ptr? && s.storage.addr == a;
          if s == this {
            assert other in old(heap.storages);
          } else {
            assert s in old(heap.storages) && s != other;
          }
        }
        forall a | a in old(heap.Owned()) ensures a in heap.Owned() {
          var s :| s in old(heap.storages) && old(s.storage) == Ptr(a);
          if s == other {
            assert this in heap.storages;
          } else {
            assert s in heap.storages;
          }
        }
      }
    }

    /** The destructor frees the block, if there is one. */
    method Destroy(heap: Allocator)
      requires heap.Valid() && this in heap.storages
      modifies heap
      ensures heap.Valid() && heap.storages == old(heap.storages) - {this}
      ensures heap.live == if storage.Ptr? then old(heap.live) - {storage.addr} else old(heap.live)
      ensures heap.Owned() == if storage.Ptr? then old(heap.Owned()) - {storage.addr} else old(heap.Owned())
    {
      heap.storages := heap.storages - {this};
      if storage.Ptr? {
        heap.OpaqueFree(storage.addr);
      }
      assert heap.Owned() == if storage.Ptr? then old(heap.Owned()) - {storage.addr} else old(heap.Owned()) by {
        forall a | a in old(heap.Owned()) && !(storage.Ptr? && a == storage.addr) ensures a in heap.Owned() {
          var s :| s in old(heap.storages) && old(s.storage) == Ptr(a);
          assert s != this;
        }
        forall a | a in heap.Owned() ensures a in old(heap.Owned()) && !(storage.Ptr? && a == storage.addr) {
          var s :| s in heap.storages && s.storage.Ptr? && s.storage.addr == a;
          assert s in old(heap.storages) && s != this;
        }
      }
    }

    /** Move assignment swaps the two blocks: none is lost and none gains a second container. */
    method MoveAssign(heap: Allocator, other: OpaqueStorage)
      requires heap.Valid() && this in heap.storages && other in heap.storages
      modifies this, other
      ensures storage == old(other.storage) && other.storage == old(storage)
      ensures heap.Valid() && heap.Owned() == old(heap.Owned())
    {
      var temp := storage;
      storage := other.storage;
      other.storage := temp;
      assert heap.Owned() == old(heap.Owned()) by {
        forall a | a in heap.Owned() ensures a in old(heap.Owned()) {
          var s :| s in heap.storages && s.storage.Ptr? && s.storage.addr == a;
          if s == this {
            assert old(other.storage) == Ptr(a);
          } else if s == other {
            assert old(storage) == Ptr(a);
          }
        }
        forall a | a in old(heap.Owned()) ensures a in heap.Owned() {
          var s :| s in old(heap.storages) && old(s.storage) == Ptr(a);
          if s == this {
            assert other.storage == Ptr(a);
          } else if s == other {
            assert storage == Ptr(a);
          }
        }
      }
    }
  }

  // ---------------------------------------------------------------------
  // swift_retain and swift_release

  /** One retain: one more strong reference to a live object, nothing else changes. */
  function Retained(rc: map<nat, nat>, p: nat): (r: map<nat, nat>)
    requires p in rc
    ensures r.Keys == rc.Keys && r[p] == rc[p] + 1
    ensures forall q :: q in rc && q != p ==> r[q] == rc[q]
  {
    rc[p := rc[p] + 1]
  }

  /** One release: one strong reference fewer; the object is destroyed when its last one goes. */
  function Released(rc: map<nat, nat>, p: nat): (r: map<nat, nat>)
    requires p in rc && rc[p] > 0
    ensures p in r <==> rc[p] > 1
    ensures p in r ==> r[p] == rc[p] - 1
    ensures forall q :: q != p ==> (q in r <==> q in rc)
    ensures forall q :: q in r && q != p ==> r[q] == rc[q]
  {
    if rc[p] == 1 then rc - {p} else rc[p := rc[p] - 1]
  }

  /** Retaining and then releasing the same object leaves every count as it was. */
  lemma RetainThenReleaseRestores(rc: map<nat, nat>, p: nat)
    requires p in rc && rc[p] > 0
    ensures Released(Retained(rc, p), p) == rc
  {
    assert Released(Retained(rc, p), p).Keys == rc.Keys;
  }

  /** Releasing first would destroy an object held only once before it could be retained again. */
  lemma ReleaseFirstDestroysLastReference(rc: map<nat, nat>, p: nat)
    requires p in rc && rc[p] == 1
    ensures p !in Released(rc, p)
  {
  }

  /** The handles, of whatever kind, that hold address `p`. */
  ghost function HoldersOf<H>(holderOf: map<H, nat>, p: nat): set<H> {
    set h | h in holderOf && holderOf[h] == p
  }

  /**
   * Every handle holds a live object, every live object has a positive
   * count, and no object has more handles than strong references: each
   * handle owns one of them.
   */
  ghost predicate Counted<H>(rc: map<nat, nat>, holderOf: map<H, nat>) {
    (forall p :: p in rc ==> rc[p] > 0 && |HoldersOf(holderOf, p)| <= rc[p]) &&
    (forall h :: h in holderOf ==> holderOf[h] in rc)
  }

  lemma HoldersAfterUpdate<H>(holderOf: map<H, nat>, h: H, p: nat, q: nat)
    ensures HoldersOf(holderOf[h := p], q) ==
            if q == p then HoldersOf(holderOf, q) + {h} else HoldersOf(holderOf, q) - {h}
  {
  }

  lemma HoldersAfterRemoval<H>(holderOf: map<H, nat>, h: H, q: nat)
    ensures HoldersOf(holderOf - {h}, q) == HoldersOf(holderOf, q) - {h}
  {
  }

  lemma CardinalityWithout<H>(s: set<H>, h: H)
    ensures h in s ==> |s - {h}| == |s| - 1
    ensures h !in s ==> s - {h} == s
  {
    if h in s {
      assert s == (s - {h}) + {h};
    }
  }

  /** A new handle adopting a strong reference no handle holds yet keeps the accounting sound. */
  lemma AdoptKeepsCounted<H>(rc: map<nat, nat>, holderOf: map<H, nat>, h: H, p: nat)
    requires Counted(rc, holderOf) && h !in holderOf
    requires p in rc && |HoldersOf(holderOf, p)| < rc[p]
    ensures Counted(rc, holderOf[h := p])
  {
    forall q | q in rc ensures |HoldersOf(holderOf[h := p], q)| <= rc[q] {
      HoldersAfterUpdate(holderOf, h, p, q);
      CardinalityWithout(HoldersOf(holderOf, q), h);
    }
  }

  /** A new handle sharing a live object, with one retain, keeps the accounting sound. */
  lemma CopyKeepsCounted<H>(rc: map<nat, nat>, holderOf: map<H, nat>, h: H, p: nat)
    requires Counted(rc, holderOf) && h !in holderOf && p in rc
    ensures Counted(Retained(rc, p), holderOf[h := p])
  {
    var rc' := Retained(rc, p);
    forall q | q in rc' ensures |HoldersOf(holderOf[h := p], q)| <= rc'[q] {
      HoldersAfterUpdate(holderOf, h, p, q);
      CardinalityWithout(HoldersOf(holderOf, q), h);
    }
  }

  /** A handle going away, with one release of its object, keeps the accounting sound. */
  lemma DestroyKeepsCounted<H>(rc: map<nat, nat>, holderOf: map<H, nat>, h: H)
    requires Counted(rc, holderOf) && h in holderOf
    ensures holderOf[h] in rc && rc[holderOf[h]] > 0
    ensures Counted(Released(rc, holderOf[h]), holderOf - {h})
  {
    var p := holderOf[h];
    var rc' := Released(rc, p);
    forall q | q in rc' ensures |HoldersOf(holderOf - {h}, q)| <= rc'[q] {
      HoldersAfterRemoval(holderOf, h, q);
      CardinalityWithout(HoldersOf(holderOf, q), h);
    }
    forall g | g in holderOf - {h} ensures (holderOf - {h})[g] in rc' {
      if holderOf[g] == p {
        assert h in HoldersOf(holderOf, p) && g in HoldersOf(holderOf, p);
        assert {g, h} <= HoldersOf(holderOf, p);
        CardinalityWithout(HoldersOf(holderOf, p), h);
      }
    }
  }

  /** Forgetting a handle, with no count changing, keeps the accounting sound. */
  lemma RemoveKeepsCounted<H>(rc: map<nat, nat>, holderOf: map<H, nat>, h: H)
    requires Counted(rc, holderOf)
    ensures Counted(rc, holderOf - {h})
  {
    forall r | r in rc ensures |HoldersOf(holderOf - {h}, r)| <= rc[r] {
      HoldersAfterRemoval(holderOf, h, r);
      CardinalityWithout(HoldersOf(holderOf, r), h);
    }
  }

  /** Releasing a strong reference that no handle needs keeps the accounting sound. */
  lemma ReleaseSpareKeepsCounted<H>(rc: map<nat, nat>, holderOf: map<H, nat>, p: nat)
    requires Counted(rc, holderOf) && p in rc && |HoldersOf(holderOf, p)| < rc[p]
    ensures Counted(Released(rc, p), holderOf)
  {
    var rc' := Released(rc, p);
    forall g | g in holderOf ensures holderOf[g] in rc' {
      if holderOf[g] == p {
        assert g in HoldersOf(holderOf, p);
      }
    }
  }

  /**
   * A handle moving from object `ptr` to a live object `q` by retaining `q`
   * first and releasing `ptr` second keeps the accounting sound, for every
   * `q`, the handle's own object included.
   */
  lemma ReassignKeepsCounted<H>(rc: map<nat, nat>, holderOf: map<H, nat>, h: H, q: nat)
    requires Counted(rc, holderOf) && h in holderOf && q in rc
    ensures Retained(rc, q)[holderOf[h]] > 0
    ensures Counted(Released(Retained(rc, q), holderOf[h]), holderOf[h := q])
  {
    var p := holderOf[h];
    RemoveKeepsCounted(rc, holderOf, h);
    CopyKeepsCounted(rc, holderOf - {h}, h, q);
    assert (holderOf - {h})[h := q] == holderOf[h := q];
    // the handle's own reference to `p` is the spare one: the retain of `q`
    // when `p == q`, otherwise the one it stops holding
    HoldersAfterUpdate(holderOf, h, q, p);
    CardinalityWithout(HoldersOf(holderOf, p), h);
    assert h in HoldersOf(holderOf, p);
    if p == q {
      assert HoldersOf(holderOf, p) + {h} == HoldersOf(holderOf, p);
    }
    ReleaseSpareKeepsCounted(Retained(rc, q), holderOf[h := q], p);
  }

  /** A reference passing from one handle to a new one, with no count changing, keeps the accounting sound. */
  lemma MoveKeepsCounted<H>(rc: map<nat, nat>, holderOf: map<H, nat>, from: H, to: H)
    requires Counted(rc, holderOf) && from in holderOf && to !in holderOf
    ensures Counted(rc, (holderOf - {from})[to := holderOf[from]])
  {
    var p := holderOf[from];
    var moved := (holderOf - {from})[to := p];
    forall q | q in rc ensures |HoldersOf(moved, q)| <= rc[q] {
      HoldersAfterUpdate(holderOf - {from}, to, p, q);
      HoldersAfterRemoval(holderOf, from, q);
      CardinalityWithout(HoldersOf(holderOf, q), from);
      CardinalityWithout(HoldersOf(holderOf - {from}, q), to);
    }
  }

  /** The Swift runtime's strong retain counts, with the RefCountedClass handles that hold each object. */
  class SwiftObjects {
    /** The retain count of every live Swift class instance, by address. */
    var rc: map<nat, nat>
    /** The handles in existence, with the address each holds. */
    ghost var holderOf: map<RefCountedClass, nat>

    /** The accounting is sound, and every handle's field names the object recorded for it. */
    ghost predicate Valid()
      reads this, holderOf.Keys
    {
      Counted(rc, holderOf) &&
      forall h :: h in holderOf ==> h.opaquePointer == holderOf[h]
    }

    constructor ()
      ensures Valid() && rc == map[] && holderOf == map[]
    {
      rc := map[];
      holderOf := map[];
    }

    /** swift_retain. */
    method Retain(p: nat)
      requires p in rc
      modifies this
      ensures rc == Retained(old(rc), p)
      ensures holderOf == old(holderOf)
    {
      rc := rc[p := rc[p] + 1];
    }

    /** swift_release. */
    method Release(p: nat)
      requires p in rc && rc[p] > 0
      modifies this
      ensures rc == Released(old(rc), p)
      ensures holderOf == old(holderOf)
    {
      if rc[p] == 1 {
        rc := rc - {p};
      } else {
        rc := rc[p := rc[p] - 1];
      }
    }
  }

  /** A C++ handle to a Swift class instance; it owns one strong reference. */
  class RefCountedClass {
    var opaquePointer: nat

    /** The protected constructor adopts a strong reference that no handle holds yet. */
    constructor Adopt(objects: SwiftObjects, ptr: nat)
      requires objects.Valid() && ptr in objects.rc && |HoldersOf(objects.holderOf, ptr)| < objects.rc[ptr]
      modifies objects
      ensures opaquePointer == ptr
      ensures objects.Valid() && objects.rc == old(objects.rc)
      ensures objects.holderOf == old(objects.holderOf)[this := ptr]
    {
      opaquePointer := ptr;
      new;
      AdoptKeepsCounted(objects.rc, objects.holderOf, this, ptr);
      objects.holderOf := objects.holderOf[this := ptr];
    }

    /** Copy construction shares the other handle's object and retains it once. */
    constructor Copy(objects: SwiftObjects, other: RefCountedClass)
      requires objects.Valid() && other in objects.holderOf
      modifies objects
      ensures opaquePointer == other.opaquePointer
      ensures objects.Valid() && objects.rc == Retained(old(objects.rc), other.opaquePointer)
      ensures objects.holderOf == old(objects.holderOf)[this := other.opaquePointer]
    {
      opaquePointer := other.opaquePointer;
      new;
      CopyKeepsCounted(objects.rc, objects.holderOf, this, opaquePointer);
      objects.Retain(opaquePointer);
      objects.holderOf := objects.holderOf[this := opaquePointer];
    }

    /** The destructor releases the object once. */
    method Destroy(objects: SwiftObjects)
      requires objects.Valid() && this in objects.holderOf
      modifies objects
      ensures objects.Valid() && objects.rc == Released(old(objects.rc), opaquePointer)
      ensures objects.holderOf == old(objects.holderOf) - {this}
    {
      DestroyKeepsCounted(objects.rc, objects.holderOf, this);
      objects.Release(opaquePointer);
      objects.holderOf := objects.holderOf - {this};
    }

    /**
     * Copy assignment retains the new object before it releases the old one,
     * so assigning a handle to itself, or to another handle of the same
     * object, never destroys that object and leaves its count unchanged.
     */
    method CopyAssign(objects: SwiftObjects, other: RefCountedClass)
      requires objects.Valid() && this in objects.holderOf && other in objects.holderOf
      modifies this, objects
      ensures opaquePointer == old(other.opaquePointer)
      ensures objects.Valid() && objects.holderOf == old(objects.holderOf)[this := opaquePointer]
      ensures objects.rc == Released(Retained(old(objects.rc), old(other.opaquePointer)), old(opaquePointer))
      ensures old(opaquePointer) == old(other.opaquePointer) ==> objects.rc == old(objects.rc)
    {
      var q := other.opaquePointer;
      ReassignKeepsCounted(objects.rc, objects.holderOf, this, q);
      objects.Retain(q);
      objects.Release(opaquePointer);
      opaquePointer := q;
      objects.holderOf := objects.holderOf[this := q];
      if old(opaquePointer) == q {
        RetainThenReleaseRestores(old(objects.rc), q);
      }
    }
  }

  // ---------------------------------------------------------------------
  // swift_errorRetain, swift_errorRelease and Error

  /** The Swift runtime's retain counts of error boxes, with the Error values that hold each one. */
  class SwiftErrors {
    /** The retain count of every live error box, by address. */
    var rc: map<nat, nat>
    /** The non-null Error values in existence, with the address each holds. */
    ghost var holderOf: map<Error, nat>

    /** The accounting is sound, and every recorded Error's field names the box recorded for it. */
    ghost predicate Valid()
      reads this, holderOf.Keys
    {
      Counted(rc, holderOf) &&
      forall e :: e in holderOf ==> e.opaqueValue == Ptr(holderOf[e])
    }

    /** A non-null Error is one this runtime accounts for. */
    ghost predicate Accounts(e: Error)
      reads this, e
    {
      e.opaqueValue.Ptr? ==> e in holderOf
    }

    constructor ()
      ensures Valid() && rc == map[] && holderOf == map[]
    {
      rc := map[];
      holderOf := map[];
    }

    /** swift_errorRetain. */
    method ErrorRetain(p: nat)
      requires p in rc
      modifies this
      ensures rc == Retained(old(rc), p)
      ensures holderOf == old(holderOf)
    {
      rc := rc[p := rc[p] + 1];
    }

    /** swift_errorRelease. */
    method ErrorRelease(p: nat)
      requires p in rc && rc[p] > 0
      modifies this
      ensures rc == Released(old(rc), p)
      ensures holderOf == old(holderOf)
    {
      if rc[p] == 1 {
        rc := rc - {p};
      } else {
        rc := rc[p := rc[p] - 1];
      }
    }
  }

  /** A C++ value holding a Swift error, or null once it has been moved from. */
  class Error {
    var opaqueValue: Pointer

    /** The default constructor holds null. */
    constructor Empty()
      ensures opaqueValue == Null
    {
      opaqueValue := Null;
    }

    /** Construction from a Swift error adopts a reference that no Error holds yet. */
    constructor Adopt(boxes: SwiftErrors, swiftError: nat)
      requires boxes.Valid() && swiftError in boxes.rc && |HoldersOf(boxes.holderOf, swiftError)| < boxes.rc[swiftError]
      modifies boxes
      ensures opaqueValue == Ptr(swiftError)
      ensures boxes.Valid() && boxes.rc == old(boxes.rc)
      ensures boxes.holderOf == old(boxes.holderOf)[this := swiftError]
    {
      opaqueValue := Ptr(swiftError);
      new;
      AdoptKeepsCounted(boxes.rc, boxes.holderOf, this, swiftError);
      boxes.holderOf := boxes.holderOf[this := swiftError];
    }

    /** Move construction takes over the other value's reference and leaves that one null; no count changes. */
    constructor Move(boxes: SwiftErrors, other: Error)
      requires boxes.Valid() && boxes.Accounts(other)
      modifies boxes, other
      ensures opaqueValue == old(other.opaqueValue) && other.opaqueValue == Null
      ensures boxes.Valid() && boxes.rc == old(boxes.rc) && boxes.Accounts(this)
      ensures boxes.holderOf == if opaqueValue.Ptr? then (old(boxes.holderOf) - {other})[this := opaqueValue.addr]
                                else old(boxes.holderOf)
    {
      opaqueValue := other.opaqueValue;
      new;
      other.opaqueValue := Null;
      if opaqueValue.Ptr? {
        var p := opaqueValue.addr;
        MoveKeepsCounted(boxes.rc, boxes.holderOf, other, this);
        boxes.holderOf := (boxes.holderOf - {other})[this := p];
      }
    }

    /** Copy construction shares the other value's error and retains it, unless that value is null. */
    constructor Copy(boxes: SwiftErrors, other: Error)
      requires boxes.Valid() && boxes.Accounts(other)
      modifies boxes
      ensures opaqueValue == other.opaqueValue
      ensures boxes.Valid() && boxes.Accounts(this)
      ensures boxes.rc == if other.opaqueValue.Ptr? then Retained(old(boxes.rc), other.opaqueValue.addr)
                          else old(boxes.rc)
      ensures boxes.holderOf == if other.opaqueValue.Ptr? then old(boxes.holderOf)[this := other.opaqueValue.addr]
                                else old(boxes.holderOf)
    {
      if other.opaqueValue.Ptr? {
        boxes.ErrorRetain(other.opaqueValue.addr);
      }
      opaqueValue := other.opaqueValue;
      new;
      if opaqueValue.Ptr? {
        var p := opaqueValue.addr;
        CopyKeepsCounted(old(boxes.rc), boxes.holderOf, this, p);
        boxes.holderOf := boxes.holderOf[this := p];
      }
    }

    /** The destructor releases the error, unless the value is null. */
    method Destroy(boxes: SwiftErrors)
      requires boxes.Valid() && boxes.Accounts(this)
      modifies boxes
      ensures boxes.Valid()
      ensures boxes.rc == if opaqueValue.Ptr? then Released(old(boxes.rc), opaqueValue.addr) else old(boxes.rc)
      ensures boxes.holderOf == old(boxes.holderOf) - {this}
    {
      if opaqueValue.Ptr? {
        DestroyKeepsCounted(boxes.rc, boxes.holderOf, this);
        boxes.ErrorRelease(opaqueValue.addr);
        boxes.holderOf := boxes.holderOf - {this};
      } else {
        assert this !in boxes.holderOf;
      }
    }
  }
}
