/** Storage of message parts: raw memory with explicit construction and destruction, the
    scoped buffer used while growing, and the growing array itself. */
module PartsStorage {
  import opened Frames
  import opened Parts

  type Buffer = array<Part?>

  /** The slots of some objects; raw memory holds nothing. */
  function SlotsOf(ps: seq<Part?>): (v: seq<Slot>)
    reads set p | p in ps
    ensures |v| == |ps| && forall i :: 0 <= i < |ps| ==> v[i] == if ps[i] == null then None else ps[i].Slot()
  {
    seq(|ps|, i requires 0 <= i < |ps| reads set p | p in ps => if ps[i] == null then None else ps[i].Slot())
  }

  /** A row of slots that all hold an object. */
  function Objects(ps: seq<Part?>): (r: seq<Part>)
    requires forall i :: 0 <= i < |ps| ==> ps[i] != null
    ensures r == ps
  {
    ps
  }

  /** The objects of a row of slots are pairwise distinct. */
  ghost predicate Distinct(ps: seq<Part?>) {
    forall i, j :: 0 <= i < j < |ps| && ps[i] != null ==> ps[i] != ps[j]
  }

  /** Raw memory and the parts living in it; `null` is a slot without an object, so a slot is
      constructed only while raw and destroyed only while constructed. The ledger counts both
      and knows the buffers in use and those freed. */
  class Allocator {
    ghost var constructed: nat
    ghost var destroyed: nat
    ghost var buffers: set<Buffer>
    ghost var freed: set<Buffer>

    constructor ()
      ensures constructed == destroyed == 0 && buffers == freed == {}
    {
      constructed, destroyed, buffers, freed := 0, 0, {}, {};
    }

    method Allocate(n: nat) returns (mem: Buffer)
      modifies this`buffers
      ensures fresh(mem) && mem.Length == n && forall i :: 0 <= i < n ==> mem[i] == null
      ensures buffers == old(buffers) + {mem}
    {
      mem := new Part?[n](_ => null);
      buffers := buffers + {mem};
    }

    /** A buffer is freed once, with its own length, when no object lives in it. */
    method Deallocate(mem: Buffer, n: nat)
      requires mem in buffers && mem.Length == n && forall i :: 0 <= i < n ==> mem[i] == null
      modifies this`buffers, this`freed
      ensures buffers == old(buffers) - {mem} && freed == old(freed) + {mem}
    {
      buffers, freed := buffers - {mem}, freed + {mem};
    }

    /** Copy construction in a raw slot, which moves the source's content. */
    method Construct(mem: Buffer, i: nat, src: Part)
      requires mem in buffers && i < mem.Length && mem[i] == null
      modifies this`constructed, mem, src
      ensures mem[i] != null && fresh(mem[i]) && mem[i].Slot() == old(src.Slot()) && !src.valid
      ensures forall k :: 0 <= k < mem.Length && k != i ==> mem[k] == old(mem[k])
      ensures constructed == old(constructed) + 1
    {
      mem[i] := new Part.Moved(src);
      constructed := constructed + 1;
    }

    /** Placement of an empty valid part in a raw slot. */
    method Emplace(mem: Buffer, i: nat) returns (p: Part)
      requires mem in buffers && i < mem.Length && mem[i] == null
      modifies this`constructed, mem
      ensures mem[i] == p && fresh(p) && p.Slot() == Some([])
      ensures forall k :: 0 <= k < mem.Length && k != i ==> mem[k] == old(mem[k])
      ensures constructed == old(constructed) + 1
    {
      p := new Part();
      mem[i] := p;
      constructed := constructed + 1;
    }

    method Destroy(mem: Buffer, i: nat)
      requires mem in buffers && i < mem.Length && mem[i] != null
      modifies this`destroyed, mem
      ensures mem[i] == null && forall k :: 0 <= k < mem.Length && k != i ==> mem[k] == old(mem[k])
      ensures destroyed == old(destroyed) + 1
    {
      mem[i] := null;
      destroyed := destroyed + 1;
    }
  }

  /** Moves the objects in the first `n` slots to another buffer. */
  method Relocate(alloc: Allocator, from: Buffer, to: Buffer, n: nat)
    requires from in alloc.buffers && to in alloc.buffers && from != to
    requires n == from.Length <= to.Length && Distinct(from[..])
    requires forall i :: 0 <= i < n ==> from[i] != null
    requires forall i :: 0 <= i < to.Length ==> to[i] == null
    modifies alloc`constructed, alloc`destroyed, from, to, from[..]
    ensures alloc.constructed == old(alloc.constructed) + n && alloc.destroyed == old(alloc.destroyed) + n
    ensures forall i :: 0 <= i < n ==>
              from[i] == null && to[i] != null && fresh(to[i]) && to[i].Slot() == old(from[i].Slot())
    ensures forall i :: n <= i < to.Length ==> to[i] == null
    ensures Distinct(to[..])
  {
    var i := 0;
    while i < n
      invariant 0 <= i <= n
      invariant alloc.constructed == old(alloc.constructed) + i && alloc.destroyed == old(alloc.destroyed) + i
      invariant forall k :: 0 <= k < i ==>
                  from[k] == null && to[k] != null && fresh(to[k]) && to[k].Slot() == old(from[k].Slot())
      invariant forall k :: i <= k < n ==> from[k] == old(from[k]) && from[k].Slot() == old(from[k].Slot())
      invariant forall k :: i <= k < to.Length ==> to[k] == null
      invariant Distinct(to[..i])
    {
      alloc.Construct(to, i, from[i]);
      alloc.Destroy(from, i);
      i := i + 1;
    }
  }

  /** A buffer freed at the end of its scope unless it was released. */
  class ScopedAlloc {
    var mem: array?<Part?>
    var n: nat
    const alloc: Allocator

    constructor (alloc: Allocator, n: nat)
      modifies alloc`buffers
      ensures this.alloc == alloc
      ensures mem != null && fresh(mem) && mem.Length == n == this.n
      ensures forall i :: 0 <= i < n ==> mem[i] == null
      ensures alloc.buffers == old(alloc.buffers) + {mem}
    {
      this.alloc := alloc;
      var m := alloc.Allocate(n);
      mem, this.n := m, n;
    }

    method Release() returns (m: array?<Part?>)
      modifies this
      ensures m == old(mem) && mem == null && n == 0
    {
      m := mem;
      mem, n := null, 0;
    }

    /** The destructor. */
    method Dispose()
      requires mem != null ==> mem in alloc.buffers && mem.Length == n && forall i :: 0 <= i < n ==> mem[i] == null
      modifies alloc`buffers, alloc`freed
      ensures mem == null ==> unchanged(alloc)
      ensures mem != null ==> alloc.buffers == old(alloc.buffers) - {mem} && alloc.freed == old(alloc.freed) + {mem}
    {
      if mem != null {
        alloc.Deallocate(mem, n);
      }
    }
  }

  /** A full buffer is replaced by a larger one holding the same parts. */
  method Reallocate(alloc: Allocator, from: Buffer, capacity: nat) returns (to: Buffer)
    requires alloc.buffers == {from} && from.Length <= capacity && Distinct(from[..])
    requires forall i :: 0 <= i < from.Length ==> from[i] != null
    modifies alloc, from, from[..]
    ensures alloc.buffers == {to} && alloc.freed == old(alloc.freed) + {from} && fresh(to) && to.Length == capacity
    ensures alloc.constructed == old(alloc.constructed) + from.Length
    ensures alloc.destroyed == old(alloc.destroyed) + from.Length
    ensures forall i :: 0 <= i < from.Length ==> from[i] == null
    ensures forall i :: 0 <= i < from.Length ==> to[i] != null && fresh(to[i]) && to[i].Slot() == old(from[i].Slot())
    ensures forall i :: from.Length <= i < capacity ==> to[i] == null
    ensures Distinct(to[..])
  {
    var buffer := new ScopedAlloc(alloc, capacity);
    Relocate(alloc, from, buffer.mem, from.Length);
    alloc.Deallocate(from, from.Length);
    to := buffer.Release();
    buffer.Dispose();
  }

  // --- what growth costs --------------------------------------------------------------

  /** Capacity after `n` calls of `next` from capacity `c`. */
  function CapacityAfter(c: nat, n: nat): nat {
    if n == 0 then c
    else if CapacityAfter(c, n - 1) == n - 1 then 2 * (n - 1)
    else CapacityAfter(c, n - 1)
  }

  /** Parts moved from buffer to buffer during `n` calls. */
  function MovedAfter(c: nat, n: nat): nat {
    if n == 0 then 0
    else MovedAfter(c, n - 1) + (if CapacityAfter(c, n - 1) == n - 1 then n - 1 else 0)
  }

  function Pow2(k: nat): nat {
    if k == 0 then 1 else 2 * Pow2(k - 1)
  }

  /** The parts moved make up what was added to the capacity. */
  lemma {:induction false} MovedIsAdded(c: nat, n: nat)
    requires c >= 1
    ensures n <= CapacityAfter(c, n) && MovedAfter(c, n) == CapacityAfter(c, n) - c
    ensures n >= 1 && CapacityAfter(c, n) > c ==> CapacityAfter(c, n) < 2 * n
  {
    if n > 0 {
      MovedIsAdded(c, n - 1);
    }
  }

  lemma {:induction false} DoubledSomeTimes(c: nat, n: nat) returns (k: nat)
    ensures CapacityAfter(c, n) == c * Pow2(k)
  {
    if n == 0 {
      k := 0;
    } else {
      k := DoubledSomeTimes(c, n - 1);
      if CapacityAfter(c, n - 1) == n - 1 {
        assert c * (2 * Pow2(k)) == 2 * (c * Pow2(k));
        k := k + 1;
      }
    }
  }

  /** Growth is amortised: the capacity is the initial one doubled some number of times, the
      parts moved make up exactly what was added to it, and they are fewer than twice the
      calls. */
  lemma AmortisedGrowth(c: nat, n: nat)
    requires c >= 1 && n >= 1
    ensures exists k: nat :: CapacityAfter(c, n) == c * Pow2(k)
    ensures n <= CapacityAfter(c, n) && MovedAfter(c, n) == CapacityAfter(c, n) - c < 2 * n
    ensures CapacityAfter(c, n) > c ==> CapacityAfter(c, n) < 2 * n
  {
    MovedIsAdded(c, n);
    var k := DoubledSomeTimes(c, n);
  }

  // --- the view of the parts ----------------------------------------------------------

  /** What is at the two addresses a view is made with: where the parts are, and how many. */
  class PartsCell {
    var parts: array?<Part?>
    var size: nat

    constructor (parts: array?<Part?>, size: nat)
      ensures this.parts == parts && this.size == size
    {
      this.parts, this.size := parts, size;
    }
  }

  /** Access to parts that does not own them: it only has the addresses, so it follows the parts
      wherever their storage moves them. */
  class Multipart {
    const cell: PartsCell

    ghost predicate Sound()
      reads cell, cell.parts
    {
      if cell.parts == null then cell.size == 0
      else cell.size <= cell.parts.Length && forall i :: 0 <= i < cell.size ==> cell.parts[i] != null
    }

    /** The parts as seen through the addresses. */
    ghost function View(): (v: seq<Slot>)
      requires Sound()
      reads cell, cell.parts, if cell.parts == null then [] else cell.parts[..]
      ensures |v| == cell.size && forall i :: 0 <= i < cell.size ==> v[i] == cell.parts[i].Slot()
    {
      if cell.parts == null then [] else SlotsOf(cell.parts[..cell.size])
    }

    constructor (cell: PartsCell)
      ensures this.cell == cell
    {
      this.cell := cell;
    }

    /** The part at `i`, if there is one and it is owned here; `null` stands for the error. */
    method At(i: nat) returns (p: Part?)
      requires Sound()
      ensures p != null <==> i < cell.size && View()[i].Some?
      ensures p != null ==> p == cell.parts[i]
    {
      p := if i < cell.size && cell.parts[i].valid then cell.parts[i] else null;
    }

    /** Gives away the part at `i`; an invalid part when it is not there or not owned. */
    method Release(i: nat) returns (p: Part)
      requires Sound()
      modifies if i < cell.size then {cell.parts[i]} else {}
      ensures fresh(p) && p.Slot() == if i < cell.size then old(View())[i] else None
      ensures i < cell.size ==> cell.parts[i].Slot() == None
    {
      if i >= cell.size {
        p := new Part(false);
      } else {
        p := new Part.Moved(cell.parts[i]);
      }
    }
  }

  // --- the growing array --------------------------------------------------------------

  /** Parts allocated by an allocator; the array doubles when it is full. */
  class DynamicPartsStorage {
    var parts: array?<Part?>
    var capacity: nat
    var size: nat
    var alloc: Allocator
    const multipart: Multipart     // the view, with the addresses of `parts` and `size`
    ghost var initial: nat         // the capacity asked for
    ghost var moved: nat           // parts moved by growth so far
    ghost var Repr: set<object>

    /** The storage owns one buffer (or none), with objects in exactly the slots in use; what
        was constructed and not destroyed, and allocated and not freed, is exactly that. So far
        only growth has destroyed objects. */
    ghost predicate Owns()
      reads this, Repr
    {
      && this in Repr && alloc in Repr && alloc.constructed - alloc.destroyed == size && alloc.destroyed == moved
      && multipart.cell in Repr && multipart.cell.parts == parts && multipart.cell.size == size
      && if parts == null then
           capacity == 0 && size == 0 && alloc.buffers == {}
         else
           && parts in Repr && alloc.buffers == {parts} && parts.Length == capacity && size <= capacity
           && (forall i :: 0 <= i < size ==> parts[i] != null && parts[i] in Repr)
           && (forall i :: size <= i < capacity ==> parts[i] == null)
           && Distinct(parts[..])
    }

    ghost predicate Valid()
      reads this, Repr
      ensures Valid() ==> this in Repr
    {
      && Owns()
      && (parts != null ==>
          initial >= 1 && capacity >= 1 &&
          capacity == CapacityAfter(initial, size) && moved == MovedAfter(initial, size))
    }

    /** The row of slots as the outside sees it. */
    ghost function View(): (v: seq<Slot>)
      requires Owns()
      reads this, Repr
      ensures |v| == size && forall i :: 0 <= i < size ==> v[i] == parts[i].Slot()
    {
      if parts == null then [] else SlotsOf(parts[..size])
    }

    /** The objects of the slots `from..to`, as far as there are any. */
    function Range(from: nat, to: nat): (r: seq<Part>)
      requires Owns()
      reads this, Repr
      ensures Distinct(r) && forall p :: p in r ==> p in Repr
      ensures |r| == (var last := if to < size then to else size; if from < last then last - from else 0)
      ensures forall i :: 0 <= i < |r| ==> r[i] == parts[from + i]
    {
      var last := if to < size then to else size;
      if from < last then Objects(parts[from..last]) else []
    }

    constructor (capacity: nat)
      requires capacity >= 1
      ensures Valid() && fresh(Repr) && parts != null
      ensures View() == [] && this.capacity == initial == capacity
    {
      alloc := new Allocator();
      var cell := new PartsCell(null, 0);
      multipart := new Multipart(cell);
      new;
      parts := alloc.Allocate(capacity);
      this.capacity, size := capacity, 0;
      initial, moved := capacity, 0;
      Repr := {this, alloc, parts};
      Address();
    }

    /** An object with the fields of another, which is about to give them up. */
    constructor Adopting(other: DynamicPartsStorage)
      requires other.Valid()
      ensures Valid() && View() == other.View() && fresh(multipart.cell)
      ensures Repr == other.Repr - {other, other.multipart.cell} + {this, multipart.cell}
      ensures parts == other.parts && alloc == other.alloc && initial == other.initial
    {
      parts, capacity, size, alloc := other.parts, other.capacity, other.size, other.alloc;
      initial, moved := other.initial, other.moved;
      var cell := new PartsCell(other.parts, other.size);
      multipart := new Multipart(cell);
      new;
      Repr := other.Repr - {other, other.multipart.cell} + {this, cell};
    }

    /** What is at the addresses is what is in the fields. */
    method Address()
      modifies this`Repr, multipart.cell
      ensures multipart.cell.parts == parts && multipart.cell.size == size
      ensures Repr == old(Repr) + {multipart.cell}
    {
      multipart.cell.parts, multipart.cell.size := parts, size;
      Repr := Repr + {multipart.cell};
    }

    /** The view always shows what is stored. */
    lemma MultipartAgrees()
      requires Owns()
      ensures multipart.Sound() && multipart.View() == View()
    {
    }

    method Grow()
      requires Owns() && parts != null && size == capacity
      modifies Repr
      ensures Owns() && fresh(Repr - old(Repr)) && parts != null
      ensures size == old(size) && capacity == 2 * old(capacity) && View() == old(View())
      ensures moved == old(moved) + size && initial == old(initial) && alloc == old(alloc)
      ensures alloc.freed == old(alloc.freed) + {old(parts)} && forall i :: 0 <= i < size ==> old(parts)[i] == null
    {
      var newCapacity := 2 * capacity;
      parts := Reallocate(alloc, parts, newCapacity);
      capacity := newCapacity;
      moved := moved + size;
      Repr := {this, alloc, parts} + set i | 0 <= i < size :: parts[i];
      Address();
    }

    /** Placing a part in the first free slot. */
    method PlaceNext() returns (p: Part)
      requires Owns() && parts != null && size < capacity
      modifies Repr
      ensures Owns() && fresh(Repr - old(Repr)) && unchanged(`parts, `capacity, `moved, `initial, `alloc)
      ensures alloc.freed == old(alloc.freed)
      ensures fresh(p) && size == old(size) + 1 && p == parts[size - 1] && p.Slot() == Some([])
      ensures View() == old(View()) + [Some([])]
    {
      p := alloc.Emplace(parts, size);
      size := size + 1;
      Repr := Repr + {p};
      Address();
    }

    /** The next part, empty and valid; `null` when there is no storage. Everything stored
        before keeps its content and validity, also when the array is reallocated. */
    method Next() returns (p: Part?)
      requires Valid()
      modifies Repr
      ensures Valid() && fresh(Repr - old(Repr)) && (parts == null <==> old(parts) == null)
      ensures initial == old(initial) && alloc == old(alloc)
      ensures p == null <==> old(parts) == null
      ensures p == null ==> View() == old(View())
      ensures parts != old(parts) ==>
                old(size) == old(capacity) && alloc.freed == old(alloc.freed) + {old(parts)}
      ensures parts == old(parts) ==> alloc.freed == old(alloc.freed)
      ensures p != null ==> fresh(p) && View() == old(View()) + [Some([])] && p == parts[size - 1]
    {
      if parts == null {
        return null;
      }
      if size == capacity {
        Grow();
      }
      p := PlaceNext();
    }

    /** When only the part at `i` changes, only its slot does. */
    twostate lemma PartChanged(i: nat)
      requires old(Owns()) && i < old(size)
      requires unchanged(this) && unchanged(alloc) && unchanged(multipart.cell) && unchanged(parts)
      requires forall k :: 0 <= k < size && k != i ==> unchanged(parts[k])
      ensures Owns() && View() == old(View())[i := parts[i].Slot()]
    {
    }

    /** At any time in its life: the capacity is the initial one doubled some number of times,
        and the objects destroyed so far, all of them moved by growth, make up what was added
        to it and are fewer than twice the calls of `Next`. */
    lemma GrowthIsAmortised()
      requires Valid() && size >= 1
      ensures exists k: nat :: capacity == initial * Pow2(k)
      ensures alloc.destroyed == moved == capacity - initial < 2 * size
      ensures alloc.constructed == size + moved
    {
      AmortisedGrowth(initial, size);
    }

    /** Hands everything over to a new object; this one is left without storage. */
    method Detach() returns (m: DynamicPartsStorage)
      requires Valid()
      modifies this, multipart.cell
      ensures Valid() && parts == null && View() == [] && fresh(Repr - old(Repr))
      ensures m.Valid() && fresh(m) && m.Repr == old(Repr) - {this, multipart.cell} + {m, m.multipart.cell}
      ensures m.View() == old(View()) && (m.parts == null <==> old(parts) == null)
      ensures m.alloc == old(alloc) && m.initial == old(initial) && fresh(alloc) && Repr !! m.Repr
    {
      hide CapacityAfter, MovedAfter, Distinct, SlotsOf;
      m := new DynamicPartsStorage.Adopting(this);
      Clear();
      assert m.Owns();
    }

    /** No storage any more. */
    method Clear()
      modifies this, multipart.cell
      ensures Valid() && parts == null && View() == [] && initial == old(initial)
      ensures fresh(alloc) && Repr == {this, alloc, multipart.cell}
    {
      alloc := new Allocator();
      parts, capacity, size, moved := null, 0, 0, 0;
      Repr := {this, alloc};
      Address();
    }

    /** The destructor: every object is destroyed and the buffer freed. */
    method Dispose()
      requires Owns()
      modifies Repr
      ensures alloc == old(alloc) && alloc.constructed == alloc.destroyed && alloc.buffers == {}
      ensures alloc.constructed == old(alloc.constructed)
      ensures alloc.freed == old(alloc.freed) + old(alloc.buffers)
    {
      if parts != null {
        var i := 0;
        while i < size
          invariant 0 <= i <= size && unchanged(this)
          invariant alloc.constructed - alloc.destroyed == size - i && alloc.constructed == old(alloc.constructed)
          invariant alloc.buffers == {parts} && alloc.freed == old(alloc.freed)
          invariant forall k :: 0 <= k < i || size <= k < capacity ==> parts[k] == null
          invariant forall k :: i <= k < size ==> parts[k] != null
        {
          alloc.Destroy(parts, i);
          i := i + 1;
        }
        alloc.Deallocate(parts, capacity);
      }
    }

    /** The part at `i`, if there is one and it is owned here; `null` stands for the error. */
    method At(i: nat) returns (p: Part?)
      requires Owns()
      ensures p != null <==> i < size && View()[i].Some?
      ensures p != null ==> p == parts[i]
    {
      p := multipart.At(i);
    }

    /** Gives away the part at `i`; an invalid part when it is not owned here. */
    method ReleasePart(i: nat) returns (p: Part)
      requires Valid()
      modifies Repr
      ensures Valid() && unchanged(this) && fresh(p)
      ensures p.Slot() == if i < size then old(View())[i] else None
      ensures View() == if i < size then old(View())[i := None] else old(View())
    {
      p := multipart.Release(i);
    }
  }

  /** A storage filled by `n` calls from capacity `c`: doubled some number of times, with fewer
      than twice as many moves as calls. */
  method Fill(c: nat, n: nat) returns (st: DynamicPartsStorage)
    requires c >= 1
    ensures st.Valid() && fresh(st.Repr) && st.parts != null && st.initial == c
    ensures st.View() == seq(n, _ => Some([]))
    ensures exists k: nat :: st.capacity == c * Pow2(k)
    ensures n >= 1 ==> st.alloc.destroyed == st.moved == st.capacity - c < 2 * n
    ensures st.alloc.destroyed == MovedAfter(c, n)
  {
    st := new DynamicPartsStorage(c);
    hide CapacityAfter, MovedAfter, Pow2, SlotsOf, Distinct;
    var i := 0;
    while i < n
      invariant 0 <= i <= n && st.Valid() && fresh(st.Repr) && st.parts != null && st.initial == c
      invariant st.View() == seq(i, _ => Some([]))
    {
      var _ := st.Next();
      i := i + 1;
    }
    var k := DoubledSomeTimes(c, n);
    if n >= 1 {
      st.GrowthIsAmortised();
    }
  }

  /** A view taken once shows all that is stored later, also when it was moved; the array as it
      was is freed then. */
  method ViewFollows(st: DynamicPartsStorage, n: nat) returns (view: Multipart)
    requires st.Valid() && st.parts != null
    modifies st.Repr
    ensures view == st.multipart && st.Valid() && view.Sound()
    ensures view.View() == st.View() == old(st.View()) + seq(n, _ => Some([]))
    ensures st.parts != old(st.parts) ==> old(st.parts) in st.alloc.freed
  {
    hide CapacityAfter, MovedAfter, SlotsOf, Distinct;
    view := st.multipart;
    var i := 0;
    while i < n
      invariant 0 <= i <= n && st.Valid() && st.parts != null && fresh(st.Repr - old(st.Repr))
      invariant st.View() == old(st.View()) + seq(i, _ => Some([]))
      invariant st.parts != old(st.parts) ==> old(st.parts) in st.alloc.freed
    {
      var _ := st.Next();
      i := i + 1;
    }
    st.MultipartAgrees();
  }

  /** From construction over growth, and with or without a detach, to the destructors: whatever
      the allocator made of objects and buffers is destroyed and freed. An object is made for
      each part and again for each move of one. */
  method LiveAndDie(c: nat, n: nat, detach: bool) returns (ghost a: Allocator)
    requires c >= 1
    ensures fresh(a) && a.buffers == {} && a.freed != {}
    ensures a.constructed == a.destroyed == n + MovedAfter(c, n)
  {
    var st := Fill(c, n);
    hide CapacityAfter, MovedAfter, Pow2, SlotsOf, Distinct;
    a := st.alloc;
    assert a.constructed == n + MovedAfter(c, n);
    if detach {
      var m := st.Detach();
      st.Dispose();
      m.Dispose();
    } else {
      st.Dispose();
    }
  }

  /** A fixed number of parts, all constructed in advance. */
  class StackPartsStorage {
    const parts: array<Part?>
    var size: nat
    ghost var Repr: set<object>

    ghost predicate Valid()
      reads this, Repr
      ensures Valid() ==> this in Repr
    {
      && this in Repr && parts in Repr && size <= parts.Length && Distinct(parts[..])
      && (forall i :: 0 <= i < parts.Length ==> parts[i] != null && parts[i] in Repr)
      && (forall i :: size <= i < parts.Length ==> parts[i].Slot() == Some([]))
    }

    ghost function View(): (v: seq<Slot>)
      requires Valid()
      reads this, Repr
      ensures |v| == size && forall i :: 0 <= i < size ==> v[i] == parts[i].Slot()
    {
      SlotsOf(parts[..size])
    }

    /** The objects in use. */
    function Parts(): (r: seq<Part>)
      requires Valid()
      reads this, Repr
      ensures Distinct(r) && |r| == size && forall p :: p in r ==> p in Repr
      ensures SlotsOf(r) == View()
    {
      Objects(parts[..size])
    }

    constructor (n: nat)
      ensures Valid() && fresh(Repr) && parts.Length == n && View() == []
    {
      parts := new Part?[n](_ => null);
      size := 0;
      new;
      var i := 0;
      while i < n
        invariant 0 <= i <= n && size == 0 && fresh(parts)
        invariant forall k :: 0 <= k < i ==> parts[k] != null && fresh(parts[k]) && parts[k].Slot() == Some([])
        invariant Distinct(parts[..i])
      {
        parts[i] := new Part();
        i := i + 1;
      }
      Repr := {this, parts} + set k | 0 <= k < n :: parts[k];
    }

    /** The next part, or `null` once all are in use. */
    method Next() returns (p: Part?)
      requires Valid()
      modifies this`size
      ensures Valid() && (p == null <==> old(size) == parts.Length)
      ensures p == null ==> unchanged(this)
      ensures p != null ==> View() == old(View()) + [Some([])] && p == parts[size - 1]
    {
      if size < parts.Length {
        p := parts[size];
        size := size + 1;
      } else {
        p := null;
      }
    }
  }
}
