/**
  The tables of the DRM layer: the per-file arrays of contexts, buffer handles
  and attachments, edited in place by swap-removal, and the global registry that
  hands out buffer handles. Backend calls become a boolean saying whether the
  backend accepted the request.
 */
module DrmTables {

  const MAX_FILE_CONTEXTS := 32
  const MAX_FILE_BUFFERS := 64
  const MAX_ATTACHMENTS := 128
  const MAX_GLOBAL_BUFFERS := 256
  const MAX_MMAP_HANDLE := 0x7ffff

  datatype Status = Ok | NoEnt | Exist | NoSpc | MFile | Busy | NotSup | Refused | Fault

  // What the backend does with a call: it has no such operation, or it returns
  // an error, or it succeeds.
  datatype Backend = Missing | Refuses | Accepts

  datatype Attachment = Attachment(context: nat, handle: nat)

  // ------------------------------------------------------------ swap removal

  predicate NoDup<T(==)>(s: seq<T>) {
    forall i, j :: 0 <= i < j < |s| ==> s[i] != s[j]
  }

  function Elements<T>(s: seq<T>): set<T> {
    set x | x in s
  }

  // The last element moves into the place of the removed one.
  function SwapRemove<T>(s: seq<T>, i: nat): seq<T>
    requires i < |s|
  {
    s[i := s[|s| - 1]][..|s| - 1]
  }

  lemma SwapRemoveIsRemoval<T>(s: seq<T>, i: nat)
    requires i < |s|
    ensures multiset(SwapRemove(s, i)) == multiset(s) - multiset{s[i]}
  {
    var n := |s| - 1;
    if i == n {
      assert s == s[..n] + [s[n]];
    } else {
      assert s == s[..i] + [s[i]] + s[i + 1..n] + [s[n]];
      assert SwapRemove(s, i) == s[..i] + [s[n]] + s[i + 1..n];
    }
  }

  lemma SwapRemoveNoDup<T>(s: seq<T>, i: nat)
    requires i < |s| && NoDup(s)
    ensures NoDup(SwapRemove(s, i))
    ensures Elements(SwapRemove(s, i)) == Elements(s) - {s[i]}
  {
    var r, n := SwapRemove(s, i), |s| - 1;
    forall x ensures x in Elements(r) <==> x in Elements(s) - {s[i]} {
      if x in s && x != s[i] {
        var k :| 0 <= k < |s| && s[k] == x;
        assert r[if k == n then i else k] == x;
      }
      if x in r {
        var k :| 0 <= k < |r| && r[k] == x;
        assert x == s[if k == i then n else k];
      }
    }
  }

  // --------------------------------------------------------- one open DRM file

  class FileState {
    const contexts: array<nat>
    var contextCount: nat
    const buffers: array<nat>
    var bufferCount: nat
    const attachments: array<Attachment>
    var attachmentCount: nat

    ghost predicate Shape()
      reads this
    {
      && contexts.Length == MAX_FILE_CONTEXTS && contextCount <= MAX_FILE_CONTEXTS
      && buffers.Length == MAX_FILE_BUFFERS && bufferCount <= MAX_FILE_BUFFERS
      && attachments.Length == MAX_ATTACHMENTS && attachmentCount <= MAX_ATTACHMENTS
      && contexts != buffers
    }

    ghost function Contexts(): seq<nat>
      requires Shape()
      reads this, contexts
    {
      contexts[..contextCount]
    }

    ghost function Handles(): seq<nat>
      requires Shape()
      reads this, buffers
    {
      buffers[..bufferCount]
    }

    ghost function Attachments(): seq<Attachment>
      requires Shape()
      reads this, attachments
    {
      attachments[..attachmentCount]
    }

    // The attachments are a duplicate-free subset of contexts x buffers.
    ghost predicate Valid()
      reads this, contexts, buffers, attachments
    {
      && Shape()
      && NoDup(Attachments())
      && forall a :: a in Attachments() ==> a.context in Contexts() && a.handle in Handles()
    }

    constructor ()
      ensures Valid() && fresh(contexts) && fresh(buffers) && fresh(attachments)
      ensures Contexts() == [] && Handles() == [] && Attachments() == []
    {
      contexts := new nat[MAX_FILE_CONTEXTS](_ => 0);
      buffers := new nat[MAX_FILE_BUFFERS](_ => 0);
      attachments := new Attachment[MAX_ATTACHMENTS](_ => Attachment(0, 0));
      contextCount, bufferCount, attachmentCount := 0, 0, 0;
    }

    method HasContext(context: nat) returns (found: bool, index: nat)
      requires Shape()
      ensures found <==> context in Contexts()
      ensures found ==> index < contextCount && Contexts()[index] == context && context !in Contexts()[..index]
    {
      index := 0;
      while index < contextCount
        invariant index <= contextCount
        invariant context !in contexts[..index]
      {
        if contexts[index] == context {
          return true, index;
        }
        index := index + 1;
      }
      found := false;
    }

    method FindBuffer(handle: nat) returns (found: bool, index: nat)
      requires Shape()
      ensures found <==> handle in Handles()
      ensures found ==> index < bufferCount && Handles()[index] == handle && handle !in Handles()[..index]
    {
      index := 0;
      while index < bufferCount
        invariant index <= bufferCount
        invariant handle !in buffers[..index]
      {
        if buffers[index] == handle {
          return true, index;
        }
        index := index + 1;
      }
      found := false;
    }

    method FindAttachment(context: nat, handle: nat) returns (index: int)
      requires Shape()
      ensures index == -1 <==> Attachment(context, handle) !in Attachments()
      ensures index != -1 ==> 0 <= index < attachmentCount && Attachments()[index] == Attachment(context, handle)
    {
      index := 0;
      while index < attachmentCount
        invariant 0 <= index <= attachmentCount
        invariant Attachment(context, handle) !in attachments[..index]
      {
        if attachments[index] == Attachment(context, handle) {
          return;
        }
        index := index + 1;
      }
      index := -1;
    }

    // The end of armos_drm_context_create, with the id the global counter gave.
    method AddContext(context: nat, backend: Backend) returns (r: Status)
      requires Valid()
      modifies this`contextCount, contexts
      ensures Valid()
      ensures r == if backend.Missing? then NotSup else if old(contextCount) == MAX_FILE_CONTEXTS then MFile
                   else if backend.Accepts? then Ok else Refused
      ensures Contexts() == if r == Ok then old(Contexts()) + [context] else old(Contexts())
    {
      if backend.Missing? {
        return NotSup;
      }
      if contextCount >= MAX_FILE_CONTEXTS {
        return MFile;
      }
      if backend.Refuses? {
        return Refused;
      }
      ghost var before := Contexts();
      contexts[contextCount] := context;
      contextCount := contextCount + 1;
      assert Contexts() == before + [context];
      return Ok;
    }

    // The table part of armos_drm_bo_create and armos_drm_bo_import.
    method AddBuffer(handle: nat, imported: bool) returns (r: Status)
      requires Valid()
      modifies this`bufferCount, buffers
      ensures Valid()
      ensures r == if old(bufferCount) == MAX_FILE_BUFFERS then MFile
                   else if imported && handle in old(Handles()) then Exist else Ok
      ensures Handles() == if r == Ok then old(Handles()) + [handle] else old(Handles())
    {
      if bufferCount >= MAX_FILE_BUFFERS {
        return MFile;
      }
      if imported {
        var found, _ := FindBuffer(handle);
        if found {
          return Exist;
        }
      }
      ghost var before := Handles();
      buffers[bufferCount] := handle;
      bufferCount := bufferCount + 1;
      assert Handles() == before + [handle];
      return Ok;
    }

    method RemoveAttachmentAt(index: nat)
      requires Shape() && index < attachmentCount
      modifies this`attachmentCount, attachments
      ensures Shape() && Attachments() == SwapRemove(old(Attachments()), index)
    {
      attachments[index] := attachments[attachmentCount - 1];
      attachmentCount := attachmentCount - 1;
    }

    // The loop of armos_drm_context_destroy: a swapped-in attachment is looked at again.
    method DetachAll(context: nat)
      requires Shape() && NoDup(Attachments())
      modifies this`attachmentCount, attachments
      ensures Shape() && NoDup(Attachments())
      ensures forall a :: a in Attachments() <==> a in old(Attachments()) && a.context != context
    {
      ghost var was := Attachments();
      var k := 0;
      while k < attachmentCount
        invariant Shape() && k <= attachmentCount
        invariant NoDup(Attachments())
        invariant forall a :: a in Attachments() ==> a in was
        invariant forall a :: a in was && a.context != context ==> a in Attachments()
        invariant forall a :: a in Attachments()[..k] ==> a.context != context
        decreases attachmentCount - k
      {
        if attachments[k].context != context {
          k := k + 1;
        } else {
          ghost var now := Attachments();
          SwapRemoveNoDup(now, k);
          RemoveAttachmentAt(k);
          assert Attachments()[..k] == now[..k];
          assert forall a :: a in now && a != now[k] <==> a in Elements(Attachments());
        }
      }
    }

    method RemoveContextAt(index: nat)
      requires Shape() && index < contextCount
      modifies this`contextCount, contexts
      ensures Shape() && Contexts() == SwapRemove(old(Contexts()), index)
    {
      contexts[index] := contexts[contextCount - 1];
      contextCount := contextCount - 1;
    }

    method RemoveBufferAt(index: nat)
      requires Shape() && index < bufferCount
      modifies this`bufferCount, buffers
      ensures Shape() && Handles() == SwapRemove(old(Handles()), index)
    {
      buffers[index] := buffers[bufferCount - 1];
      bufferCount := bufferCount - 1;
    }

    // Every attachment of the context goes, whatever the backend then says;
    // the context itself goes only if the backend agrees.
    method ContextDestroy(context: nat, backend: Backend) returns (r: Status)
      requires Valid()
      modifies this`contextCount, this`attachmentCount, contexts, attachments
      ensures Valid()
      ensures r == if context !in old(Contexts()) then NoEnt else if backend.Missing? then NotSup
                   else if backend.Refuses? then Refused else Ok
      ensures r == NoEnt || r == NotSup ==> Attachments() == old(Attachments())
      ensures r == Refused || r == Ok ==>
                forall a :: a in Attachments() <==> a in old(Attachments()) && a.context != context
      ensures multiset(Contexts()) ==
                if r == Ok then multiset(old(Contexts())) - multiset{context} else multiset(old(Contexts()))
    {
      var found, index := HasContext(context);
      if !found {
        return NoEnt;
      }
      if backend.Missing? {
        return NotSup;
      }
      DetachAll(context);
      if backend.Refuses? {
        return Refused;
      }
      RemovalKeepsOthers(Contexts(), index);
      SwapRemoveIsRemoval(Contexts(), index);
      RemoveContextAt(index);
      return Ok;
    }

    method BufferDestroy(handle: nat) returns (r: Status)
      requires Valid()
      modifies this`bufferCount, buffers
      ensures Valid()
      ensures r == if handle !in old(Handles()) then NoEnt
                   else if exists a :: a in Attachments() && a.handle == handle then Busy else Ok
      ensures multiset(Handles()) ==
                if r == Ok then multiset(old(Handles())) - multiset{handle} else multiset(old(Handles()))
    {
      var found, index := FindBuffer(handle);
      if !found {
        return NoEnt;
      }
      for i := 0 to attachmentCount
        invariant forall a :: a in attachments[..i] ==> a.handle != handle
      {
        if attachments[i].handle == handle {
          assert attachments[i] in Attachments();
          return Busy;
        }
      }
      RemovalKeepsOthers(Handles(), index);
      SwapRemoveIsRemoval(Handles(), index);
      RemoveBufferAt(index);
      return Ok;
    }

    method Attach(context: nat, handle: nat, backend: Backend) returns (r: Status)
      requires Valid()
      modifies this`attachmentCount, attachments
      ensures Valid()
      ensures r == if context !in Contexts() || handle !in Handles() then NoEnt
                   else if backend.Missing? then NotSup
                   else if Attachment(context, handle) in old(Attachments()) then Exist
                   else if old(attachmentCount) == MAX_ATTACHMENTS then NoSpc
                   else if backend.Refuses? then Refused else Ok
      ensures Attachments() ==
                if r == Ok then old(Attachments()) + [Attachment(context, handle)] else old(Attachments())
    {
      var known, _ := HasContext(context);
      var found, _ := FindBuffer(handle);
      if !known || !found {
        return NoEnt;
      }
      var attachment := FindAttachment(context, handle);
      if backend.Missing? {
        return NotSup;
      }
      if attachment >= 0 {
        return Exist;
      }
      if attachmentCount >= MAX_ATTACHMENTS {
        return NoSpc;
      }
      if backend.Refuses? {
        return Refused;
      }
      ghost var before := Attachments();
      attachments[attachmentCount] := Attachment(context, handle);
      attachmentCount := attachmentCount + 1;
      assert Attachments() == before + [Attachment(context, handle)];
      return Ok;
    }

    method Detach(context: nat, handle: nat, backend: Backend) returns (r: Status)
      requires Valid()
      modifies this`attachmentCount, attachments
      ensures Valid()
      ensures r == if context !in Contexts() || handle !in Handles() then NoEnt
                   else if backend.Missing? then NotSup
                   else if Attachment(context, handle) !in old(Attachments()) then NoEnt
                   else if backend.Refuses? then Refused else Ok
      ensures Elements(Attachments()) ==
                Elements(old(Attachments())) - if r == Ok then {Attachment(context, handle)} else {}
    {
      var known, _ := HasContext(context);
      var found, _ := FindBuffer(handle);
      if !known || !found {
        return NoEnt;
      }
      var attachment := FindAttachment(context, handle);
      if backend.Missing? {
        return NotSup;
      }
      if attachment < 0 {
        return NoEnt;
      }
      if backend.Refuses? {
        return Refused;
      }
      ghost var before := Attachments();
      SwapRemoveNoDup(before, attachment);
      RemoveAttachmentAt(attachment);
      forall a | a in Attachments() ensures a in before {
        assert a in Elements(Attachments());
      }
      return Ok;
    }
  }

  lemma RemovalKeepsOthers<T>(s: seq<T>, i: nat)
    requires i < |s|
    ensures forall x :: x in s && x != s[i] ==> x in SwapRemove(s, i)
  {
    var r, n := SwapRemove(s, i), |s| - 1;
    forall x | x in s && x != s[i] ensures x in r {
      var k :| 0 <= k < |s| && s[k] == x;
      assert r[if k == n then i else k] == x;
    }
  }

  // --------------------------------------------------- the registry of handles

  // drm_next_buffer_handle after one more candidate.
  function NextHandle(h: nat): nat {
    if h + 1 > MAX_MMAP_HANDLE then 1 else h + 1
  }

  // The candidate that the k-th probe after h looks at.
  function Candidate(h: nat, k: nat): nat {
    if k == 0 then h else NextHandle(Candidate(h, k - 1))
  }

  lemma {:induction false} CandidateIs(h: nat, k: nat)
    requires 1 <= h <= MAX_MMAP_HANDLE && k < MAX_MMAP_HANDLE
    ensures Candidate(h, k) == if h + k <= MAX_MMAP_HANDLE then h + k else h + k - MAX_MMAP_HANDLE
  {
    if k > 0 {
      CandidateIs(h, k - 1);
    }
  }

  // The first k candidates.
  function Tried(h: nat, k: nat): set<nat> {
    if k == 0 then {} else Tried(h, k - 1) + {Candidate(h, k - 1)}
  }

  lemma {:induction false} TriedAre(h: nat, k: nat, x: nat)
    requires 1 <= h <= MAX_MMAP_HANDLE && k <= MAX_MMAP_HANDLE && x in Tried(h, k)
    ensures exists j :: 0 <= j < k && x == Candidate(h, j)
  {
    if x != Candidate(h, k - 1) {
      TriedAre(h, k - 1, x);
    }
  }

  // Fewer than MAX_MMAP_HANDLE consecutive candidates never repeat.
  lemma {:induction false} TriedAreDistinct(h: nat, k: nat)
    requires 1 <= h <= MAX_MMAP_HANDLE && k <= MAX_MMAP_HANDLE
    ensures |Tried(h, k)| == k
  {
    if k > 0 {
      TriedAreDistinct(h, k - 1);
      var c := Candidate(h, k - 1);
      CandidateIs(h, k - 1);
      if c in Tried(h, k - 1) {
        TriedAre(h, k - 1, c);
        var j :| 0 <= j < k - 1 && c == Candidate(h, j);
        CandidateIs(h, j);
      }
    }
  }

  // The handles in a table where 0 marks an empty slot.
  function Used(slots: seq<nat>): set<nat> {
    Elements(slots) - {0}
  }

  lemma {:induction false} AtMostSlots(slots: seq<nat>)
    ensures |Elements(slots)| <= |slots|
  {
    if |slots| > 0 {
      var n := |slots| - 1;
      AtMostSlots(slots[..n]);
      assert slots == slots[..n] + [slots[n]];
      assert Elements(slots) == Elements(slots[..n]) + {slots[n]};
    }
  }

  // With a slot free, as many tries as there are slots cannot all be in use.
  lemma SomeTryIsFree(slots: seq<nat>, free: nat, h: nat, k: nat)
    requires free < |slots| && slots[free] == 0 && 1 <= h <= MAX_MMAP_HANDLE && k <= MAX_MMAP_HANDLE
    requires Tried(h, k) <= Used(slots)
    ensures k < |slots|
  {
    TriedAreDistinct(h, k);
    AtMostSlots(slots);
    var used, tried := Used(slots), Tried(h, k);
    assert slots[free] in Elements(slots);
    assert |used| == |Elements(slots)| - 1;
    assert |used - tried| == |used| - |tried|;
  }

  // Live handles are distinct: only the empty mark repeats.
  predicate LiveDistinct(slots: seq<nat>) {
    forall i, j :: 0 <= i < j < |slots| && slots[i] == slots[j] ==> slots[i] == 0
  }

  class Registry {
    const slots: array<nat>
    var next: nat

    ghost predicate Valid()
      reads this, slots
    {
      && slots.Length == MAX_GLOBAL_BUFFERS
      && 1 <= next <= MAX_MMAP_HANDLE
      && LiveDistinct(slots[..])
      && forall i :: 0 <= i < slots.Length ==> slots[i] <= MAX_MMAP_HANDLE
    }

    constructor ()
      ensures Valid() && fresh(slots) && Used(slots[..]) == {}
    {
      slots := new nat[MAX_GLOBAL_BUFFERS](_ => 0);
      next := 1;
    }

    method InUse(candidate: nat) returns (used: bool)
      requires candidate != 0
      ensures used <==> candidate in Used(slots[..])
    {
      for index := 0 to slots.Length
        invariant candidate !in slots[..index]
      {
        if slots[index] == candidate {
          return true;
        }
      }
      return false;
    }

    method FreeSlot() returns (slot: int)
      ensures slot == -1 <==> 0 !in slots[..]
      ensures slot != -1 ==> 0 <= slot < slots.Length && slots[slot] == 0
    {
      for index := 0 to slots.Length
        invariant 0 !in slots[..index]
      {
        if slots[index] == 0 {
          return index;
        }
      }
      return -1;
    }

    // drm_register_buffer: fails only when the table is full; otherwise an
    // unused handle turns up within MAX_GLOBAL_BUFFERS probes.
    method Register() returns (slot: int, handle: nat, ghost probes: nat)
      requires Valid()
      modifies this`next, slots
      ensures Valid()
      ensures slot == -1 <==> 0 !in old(slots[..])
      ensures slot == -1 ==> slots[..] == old(slots[..]) && next == old(next)
      ensures slot != -1 ==>
                && 0 <= slot < slots.Length && old(slots[slot]) == 0
                && 1 <= handle <= MAX_MMAP_HANDLE && handle !in old(slots[..])
                && slots[..] == old(slots[..])[slot := handle]
                && 1 <= probes <= MAX_GLOBAL_BUFFERS
                && handle == Candidate(old(next), probes - 1) && next == Candidate(old(next), probes)
                && Tried(old(next), probes - 1) <= Used(old(slots[..]))
    {
      handle, probes := 0, 0;
      slot := FreeSlot();
      if slot < 0 {
        return;
      }
      ghost var h := next;
      var attempt := 0;
      while attempt < MAX_MMAP_HANDLE
        invariant 0 <= attempt <= MAX_MMAP_HANDLE
        invariant 1 <= next <= MAX_MMAP_HANDLE && next == Candidate(h, attempt)
        invariant slots[..] == old(slots[..])
        invariant Tried(h, attempt) <= Used(slots[..])
      {
        var candidate := next;
        next := if next + 1 > MAX_MMAP_HANDLE then 1 else next + 1;
        var used := InUse(candidate);
        if !used {
          SomeTryIsFree(slots[..], slot, h, attempt);
          handle, probes := candidate, attempt + 1;
          slots[slot] := handle;
          assert slots[..] == old(slots[..])[slot := handle];
          return;
        }
        attempt := attempt + 1;
      }
      SomeTryIsFree(slots[..], slot, h, attempt);
      assert false;
    }

    // drm_unregister_buffer: the handle is free again and the others stay.
    method Unregister(handle: nat)
      requires Valid() && handle != 0
      modifies slots
      ensures Valid()
      ensures Used(slots[..]) == Used(old(slots[..])) - {handle}
    {
      for index := 0 to slots.Length
        invariant slots[..] == old(slots[..]) && handle !in slots[..index]
      {
        if slots[index] == handle {
          slots[index] := 0;
          ClearOne(old(slots[..]), index);
          assert slots[..] == old(slots[..])[index := 0];
          return;
        }
      }
      assert handle !in slots[..];
    }
  }

  lemma ClearOne(s: seq<nat>, i: nat)
    requires i < |s| && s[i] != 0 && LiveDistinct(s)
    ensures Used(s[i := 0]) == Used(s) - {s[i]} && LiveDistinct(s[i := 0])
  {
    var r := s[i := 0];
    forall x ensures x in Used(r) <==> x in Used(s) - {s[i]} {
      if x in s && x != s[i] {
        var k :| 0 <= k < |s| && s[k] == x;
        assert r[k] == x;
      }
    }
  }

  // --------------------------------------------- handles across both tables

  // A file's handles are distinct and registered.
  ghost predicate HandlesAgree(reg: Registry, f: FileState)
    reads reg, reg.slots, f, f.contexts, f.buffers, f.attachments
  {
    && reg.Valid() && f.Valid() && reg.slots != f.contexts && reg.slots != f.buffers
    && NoDup(f.Handles())
    && Elements(f.Handles()) <= Used(reg.slots[..])
  }

  // armos_drm_bo_create, as far as the two tables are concerned; `copied` says that the
  // reply reached the caller, and if not the new buffer is given up again.
  method BufferCreate(reg: Registry, f: FileState, backend: Backend, copied: bool) returns (r: Status, handle: nat)
    requires HandlesAgree(reg, f)
    modifies reg`next, reg.slots, f`bufferCount, f.buffers
    ensures HandlesAgree(reg, f)
    ensures r == if old(f.bufferCount) == MAX_FILE_BUFFERS then MFile else if backend.Missing? then NotSup
                 else if 0 !in old(reg.slots[..]) then NoSpc else if backend.Refuses? then Refused
                 else if !copied then Fault else Ok
    ensures r == Ok ==> handle !in old(reg.slots[..]) && 1 <= handle <= MAX_MMAP_HANDLE
    ensures f.Handles() == if r == Ok then old(f.Handles()) + [handle] else old(f.Handles())
    ensures Used(reg.slots[..]) == Used(old(reg.slots[..])) + if r == Ok then {handle} else {}
  {
    handle := 0;
    if f.bufferCount >= MAX_FILE_BUFFERS {
      return MFile, 0;
    }
    if backend.Missing? {
      return NotSup, 0;
    }
    var slot: int;
    ghost var probes;
    ghost var was := reg.slots[..];
    slot, handle, probes := reg.Register();
    if slot < 0 {
      return NoSpc, 0;
    }
    assert Used(reg.slots[..]) == Used(was) + {handle} by { FillOne(was, slot, handle); }
    if backend.Refuses? {
      reg.Unregister(handle);
      assert handle !in Used(was);
      return Refused, 0;
    }
    assert handle !in Elements(f.Handles());
    r := f.AddBuffer(handle, false);
    assert Elements(f.Handles()) == Elements(old(f.Handles())) + {handle};
    if !copied {
      f.bufferCount := f.bufferCount - 1;
      reg.Unregister(handle);
      assert f.Handles() == old(f.Handles());
      assert handle !in Used(was);
      return Fault, 0;
    }
  }

  lemma FillOne(s: seq<nat>, i: nat, h: nat)
    requires i < |s| && s[i] == 0 && h != 0
    ensures Used(s[i := h]) == Used(s) + {h}
  {
    var r := s[i := h];
    assert r[i] == h;
    forall x ensures x in Used(r) <==> x in Used(s) + {h} {
      if x in s && x != 0 {
        var k :| 0 <= k < |s| && s[k] == x;
        assert r[k] == x;
      }
    }
  }
}
