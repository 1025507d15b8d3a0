/**
  The handles of mutexes, condition variables, rwlocks, barriers and semaphores:
  a slot number and a generation packed into 32 bits, and the table they index.
 */
module Handles {

  const WORD: nat := 0x1_0000_0000
  const INDEX: nat := 0x100            // 8 bits of slot number
  const GENERATIONS: nat := 0x100_0000 // the 24 bits that remain

  datatype Slot = Slot(used: bool, generation: nat)

  datatype Decoded = Invalid | Decoded(index: nat, generation: nat)

  // The shift drops the upper bits, and the slot number fills the lower ones.
  function Make(index: nat, generation: nat): nat
    requires index + 1 < INDEX
  {
    generation * INDEX % WORD + (index + 1)
  }

  function Decode(handle: nat, limit: nat): Decoded
    requires handle < WORD
  {
    var raw := handle % INDEX;
    if raw == 0 || raw > limit then Invalid
    else if handle / INDEX == 0 then Invalid
    else Decoded(raw - 1, handle / INDEX)
  }

  function NextGeneration(generation: nat): nat {
    if generation + 1 >= WORD then 1 else generation + 1
  }

  lemma MakeIs(index: nat, generation: nat)
    requires index + 1 < INDEX && generation < WORD
    ensures Make(index, generation) == generation % GENERATIONS * INDEX + (index + 1) < WORD
  {
    var q, r := generation / GENERATIONS, generation % GENERATIONS;
    assert generation * INDEX == q * WORD + r * INDEX;
  }

  // A handle gives back its slot and generation exactly when the generation fits
  // in 24 bits and is not zero.
  lemma RoundTripIff(index: nat, generation: nat, limit: nat)
    requires index < limit < INDEX && generation < WORD
    ensures Decode(Make(index, generation), limit) == Decoded(index, generation) <==> 1 <= generation < GENERATIONS
  {
    MakeIs(index, generation);
    Unpack(generation % GENERATIONS, index + 1);
  }

  lemma Unpack(g: nat, raw: nat)
    requires raw < INDEX
    ensures (g * INDEX + raw) % INDEX == raw && (g * INDEX + raw) / INDEX == g
  {
  }

  // Distinct objects of representable generations have distinct handles.
  lemma HandlesDiffer(i: nat, g: nat, j: nat, h: nat)
    requires i + 1 < INDEX && j + 1 < INDEX && 1 <= g < GENERATIONS && 1 <= h < GENERATIONS
    requires Make(i, g) == Make(j, h)
    ensures i == j && g == h
  {
    MakeIs(i, g);
    MakeIs(j, h);
    Unpack(g, i + 1);
    Unpack(h, j + 1);
  }

  class Table {
    const slots: array<Slot>

    ghost predicate Valid()
      reads this, slots
    {
      && slots.Length + 1 < INDEX
      && forall i :: 0 <= i < slots.Length ==> slots[i].generation < WORD && (slots[i].used ==> 0 < slots[i].generation)
    }

    // The handle names the object in slot i.
    ghost predicate Names(handle: nat, i: nat)
      requires Valid() && i < slots.Length
      reads this, slots
    {
      slots[i].used && slots[i].generation < GENERATIONS && handle == Make(i, slots[i].generation)
    }

    constructor (limit: nat)
      requires limit + 1 < INDEX
      ensures Valid() && fresh(slots) && slots.Length == limit
      ensures forall i :: 0 <= i < limit ==> slots[i] == Slot(false, 0)
    {
      slots := new Slot[limit](_ => Slot(false, 0));
    }

    // mutex_resolve and its likes: a handle is accepted exactly when it names an
    // object in use.
    method Resolve(handle: nat) returns (found: bool, index: nat)
      requires Valid() && handle < WORD
      ensures found <==> exists i :: 0 <= i < slots.Length && Names(handle, i)
      ensures found ==> index < slots.Length && Names(handle, index)
    {
      index := 0;
      ghost var limit := slots.Length;
      var d := Decode(handle, slots.Length);
      forall i | 0 <= i < slots.Length && Names(handle, i)
        ensures d == Decoded(i, slots[i].generation) && slots[i].used
      {
        RoundTripIff(i, slots[i].generation, limit);
      }
      if d.Invalid? {
        return false, 0;
      }
      index := d.index;
      found := slots[index].used && slots[index].generation == d.generation;
      if found {
        DecodedIsMade(handle, limit, d);
        assert Names(handle, index);
      }
    }

    // mutex_allocate and its likes: the first free slot, under its next generation.
    method Allocate() returns (ok: bool, index: nat, handle: nat)
      requires Valid()
      modifies slots
      ensures Valid()
      ensures ok <==> exists i :: 0 <= i < slots.Length && !old(slots[i].used)
      ensures !ok ==> slots[..] == old(slots[..])
      ensures ok ==>
                && index < slots.Length && !old(slots[index].used)
                && (forall i :: 0 <= i < index ==> old(slots[i].used))
                && handle == Make(index, NextGeneration(old(slots[index].generation)))
                && slots[..] == old(slots[..])[index := Slot(true, NextGeneration(old(slots[index].generation)))]
                && (Names(handle, index) <==> NextGeneration(old(slots[index].generation)) < GENERATIONS)
    {
      index, handle := 0, 0;
      while index < slots.Length
        invariant index <= slots.Length && slots[..] == old(slots[..])
        invariant forall i :: 0 <= i < index ==> slots[i].used
      {
        if !slots[index].used {
          var generation := NextGeneration(slots[index].generation);
          slots[index] := Slot(true, generation);
          return true, index, Make(index, generation);
        }
        index := index + 1;
      }
      ok := false;
    }
  }

  lemma DecodedIsMade(handle: nat, limit: nat, d: Decoded)
    requires handle < WORD && limit + 1 < INDEX && d == Decode(handle, limit) && d.Decoded?
    ensures d.index < limit && 1 <= d.generation < GENERATIONS && handle == Make(d.index, d.generation)
  {
    MakeIs(d.index, d.generation);
  }

  // A handle of an earlier generation of a slot no longer names what is in it,
  // as long as the generation counter has not come round.
  lemma StaleHandle(i: nat, before: nat, now: nat)
    requires i + 1 < INDEX && 1 <= before < now < GENERATIONS
    ensures Make(i, before) != Make(i, now)
  {
    if Make(i, before) == Make(i, now) {
      HandlesDiffer(i, before, i, now);
    }
  }
}
