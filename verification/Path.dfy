/**
  Path normalisation in a caller's buffer: the string is edited in place, component
  by component, against a stack of components that is printed at the end.
 */
module Path {

  const NUL: char := '\0'

  // --------------------------------------------------------- the component stack

  // The pieces between slashes, empty ones included.
  function Split(s: string): (pieces: seq<string>)
    ensures pieces != []
  {
    if s == [] then [""] else Extend(Split(s[..|s| - 1]), s[|s| - 1])
  }

  // One more character: a new piece, or a longer last piece.
  function Extend(pieces: seq<string>, c: char): (r: seq<string>)
    requires pieces != []
    ensures r != []
  {
    if c == '/' then pieces + [""] else pieces[..|pieces| - 1] + [pieces[|pieces| - 1] + [c]]
  }

  // What a piece does to the stack.
  function Step(stack: seq<string>, piece: string): seq<string> {
    if piece == "" || piece == "." then stack
    else if piece == ".." then (if stack == [] then [] else stack[..|stack| - 1])
    else stack + [piece]
  }

  function Fold(pieces: seq<string>): seq<string> {
    if pieces == [] then [] else Step(Fold(pieces[..|pieces| - 1]), pieces[|pieces| - 1])
  }

  function Joined(stack: seq<string>): string {
    if stack == [] then "" else Joined(stack[..|stack| - 1]) + "/" + stack[|stack| - 1]
  }

  function Print(stack: seq<string>): string {
    if stack == [] then "/" else Joined(stack)
  }

  // Every stack on the way has been printable in `size` bytes with its terminator.
  predicate Fits(pieces: seq<string>, size: nat) {
    pieces == [] || (Fits(pieces[..|pieces| - 1], size) && |Print(Fold(pieces))| < size)
  }

  predicate Plain(s: string) {
    NUL !in s && '/' !in s
  }

  predicate Name(s: string) {
    s != "" && s != "." && s != ".." && Plain(s)
  }

  predicate Canonical(stack: seq<string>) {
    forall i :: 0 <= i < |stack| ==> Name(stack[i])
  }

  lemma {:induction false} SplitIsPlain(s: string)
    requires NUL !in s
    ensures forall i :: 0 <= i < |Split(s)| ==> Plain(Split(s)[i])
  {
    if s != [] {
      SplitIsPlain(s[..|s| - 1]);
    }
  }

  // No empty, "." or ".." component is ever on the stack.
  lemma {:induction false} FoldIsCanonical(pieces: seq<string>)
    requires forall i :: 0 <= i < |pieces| ==> Plain(pieces[i])
    ensures Canonical(Fold(pieces))
  {
    if pieces != [] {
      FoldIsCanonical(pieces[..|pieces| - 1]);
    }
  }

  // -------------------------------------------------------- what a path means

  lemma FoldOne(a: seq<string>, p: string)
    ensures Fold(a + [p]) == Step(Fold(a), p)
  {
    assert (a + [p])[..|a|] == a;
  }

  // What follows sees only the stack.
  lemma {:induction false} FoldAfter(a: seq<string>, a': seq<string>, b: seq<string>)
    requires Fold(a) == Fold(a')
    ensures Fold(a + b) == Fold(a' + b)
  {
    if b == [] {
      assert a + b == a && a' + b == a';
    } else {
      var n := |b| - 1;
      FoldAfter(a, a', b[..n]);
      assert a + b == a + b[..n] + [b[n]] && a' + b == a' + b[..n] + [b[n]];
      FoldOne(a + b[..n], b[n]);
      FoldOne(a' + b[..n], b[n]);
    }
  }

  // "name/.." is nowhere, wherever it stands.
  lemma DotDotTakesBack(a: seq<string>, name: string, b: seq<string>)
    requires Name(name)
    ensures Fold(a + [name, ".."] + b) == Fold(a + b)
  {
    assert a + [name, ".."] == a + [name] + [".."];
    FoldOne(a, name);
    FoldOne(a + [name], "..");
    FoldAfter(a + [name, ".."], a, b);
  }

  // The root is its own parent.
  lemma RootIsItsOwnParent(b: seq<string>)
    ensures Fold([".."] + b) == Fold(b)
  {
    var none: seq<string> := [];
    FoldOne(none, "..");
    assert none + [".."] == [".."] && none + b == b;
    FoldAfter([".."], none, b);
  }

  // Empty pieces and "." stand for nothing.
  lemma DotAndEmptyVanish(a: seq<string>, p: string, b: seq<string>)
    requires p == "" || p == "."
    ensures Fold(a + [p] + b) == Fold(a + b)
  {
    FoldOne(a, p);
    FoldAfter(a + [p], a, b);
  }

  // Names stand for themselves.
  lemma {:induction false} NamesStand(stack: seq<string>)
    requires Canonical(stack)
    ensures Fold(stack) == stack
  {
    if stack != [] {
      var n := |stack| - 1;
      NamesStand(stack[..n]);
      assert stack == stack[..n] + [stack[n]];
    }
  }

  lemma {:induction false} JoinedGrows(stack: seq<string>, n: nat)
    requires Canonical(stack) && n <= |stack|
    ensures Joined(stack[..n]) <= Joined(stack)
    ensures 2 * n <= |Joined(stack[..n])|
  {
    if n < |stack| {
      JoinedGrows(stack[..|stack| - 1], n);
      assert stack[..|stack| - 1][..n] == stack[..n];
    } else {
      assert stack[..n] == stack;
      if n > 0 {
        JoinedGrows(stack[..n - 1], n - 1);
        assert stack[..n - 1][..n - 1] == stack[..n - 1];
      }
    }
  }

  lemma SplitSlash(s: string)
    ensures Split(s + "/") == Split(s) + [""]
  {
    assert (s + "/")[..|s|] == s;
  }

  lemma {:induction false} SplitPiece(s: string, c: string)
    requires '/' !in c
    ensures Split(s + "/" + c) == Split(s) + [c]
  {
    if c == [] {
      SplitSlash(s);
      assert s + "/" + c == s + "/";
    } else {
      var d := c[..|c| - 1];
      SplitPiece(s, d);
      assert (s + "/" + c)[..|s + "/" + c| - 1] == s + "/" + d;
      assert c == d + [c[|c| - 1]];
    }
  }

  lemma ExtendOne(piece: string, c: char)
    requires c != '/'
    ensures Extend([piece], c) == [piece + [c]]
  {
    assert [piece][..0] == [];
  }

  // A string without slashes is one piece.
  lemma {:induction false} SplitWhole(s: string)
    requires '/' !in s
    ensures Split(s) == [s]
  {
    hide Split, Extend;
    if s == [] {
      SplitEmpty();
    } else {
      var n := |s| - 1;
      SplitWhole(s[..n]);
      SplitLast(s);
      assert s[n] in s && s == s[..n] + [s[n]];
      ExtendOne(s[..n], s[n]);
    }
  }

  lemma {:induction false} SplitJoined(stack: seq<string>)
    requires Canonical(stack)
    ensures Split(Joined(stack)) == [""] + stack
  {
    if stack != [] {
      var n := |stack| - 1;
      SplitJoined(stack[..n]);
      SplitPiece(Joined(stack[..n]), stack[n]);
      assert stack == stack[..n] + [stack[n]];
    }
  }

  lemma {:induction false} FoldNames(stack: seq<string>, size: nat)
    requires Canonical(stack) && |Print(stack)| < size && 1 < size
    ensures Fold([""] + stack) == stack && Fits([""] + stack, size)
  {
    if stack == [] {
      assert [""] + stack == [""];
      assert Fold([""]) == [] && [""][..0] == [];
    } else {
      var n := |stack| - 1;
      JoinedGrows(stack, n);
      FoldNames(stack[..n], size);
      assert ([""] + stack)[..n + 1] == [""] + stack[..n];
      assert stack == stack[..n] + [stack[n]];
    }
  }

  // A normalised path that fits is its own normal form.
  lemma NormalFormIsFixed(stack: seq<string>, size: nat)
    requires Canonical(stack) && |Print(stack)| < size && 1 < size
    ensures Fold(Split(Print(stack))) == stack && Fits(Split(Print(stack)), size)
  {
    if stack == [] {
      SplitSlash("");
      assert "" + "/" == "/" && Split("/") == ["", ""];
      assert ["", ""][..1] == [""] && [""][..0] == [];
      var none: seq<string> := [];
      assert Fold(none) == [] && Fold([""]) == [];
    } else {
      SplitJoined(stack);
      FoldNames(stack, size);
    }
  }

  // Normalising what has been normalised changes nothing and never overflows.
  lemma NormalizingTwiceIsOnce(path: string, size: nat)
    requires NUL !in path && 1 < size && Fits(Split(path), size)
    ensures var normal := Print(Fold(Split(path)));
            Print(Fold(Split(normal))) == normal && Fits(Split(normal), size)
  {
    SplitIsPlain(path);
    FoldIsCanonical(Split(path));
    NormalFormIsFixed(Fold(Split(path)), size);
  }

  // ------------------------------------------------------------------ the buffer

  // The buffer holds the string and its terminator.
  ghost predicate Holds(dst: array<char>, s: string)
    reads dst
  {
    |s| < dst.Length && dst[..|s|] == s && dst[|s|] == NUL && NUL !in s
  }

  method StrLen(dst: array<char>, ghost s: string) returns (n: nat)
    requires Holds(dst, s)
    ensures n == |s|
  {
    assert forall i :: 0 <= i < |s| ==> dst[i] == s[i] && s[i] != NUL;
    n := 0;
    while dst[n] != NUL
      invariant n <= |s|
      decreases |s| - n
    {
      n := n + 1;
    }
  }

  // strrchr(dst, '/')
  method LastSlash(dst: array<char>, n: nat) returns (k: int)
    requires n <= dst.Length
    ensures -1 <= k < n && (k != -1 ==> dst[k] == '/')
    ensures forall i :: k < i < n ==> dst[i] != '/'
  {
    k := n - 1;
    while 0 <= k && dst[k] != '/'
      invariant -1 <= k < n
      invariant forall i :: k < i < n ==> dst[i] != '/'
    {
      k := k - 1;
    }
  }

  lemma {:induction false} JoinedHasNoNul(stack: seq<string>)
    requires Canonical(stack)
    ensures NUL !in Joined(stack)
  {
    if stack != [] {
      JoinedHasNoNul(stack[..|stack| - 1]);
    }
  }

  lemma PrintFacts(stack: seq<string>)
    requires Canonical(stack)
    ensures NUL !in Print(stack) && (|Print(stack)| > 1 <==> stack != [])
  {
    JoinedHasNoNul(stack);
    JoinedGrows(stack, |stack|);
    assert stack[..|stack|] == stack;
  }

  // The last slash of a printed stack is where the rest of the stack ends.
  lemma LastSlashOfJoined(stack: seq<string>, k: int)
    requires Canonical(stack) && stack != []
    requires -1 <= k < |Joined(stack)| && (k != -1 ==> Joined(stack)[k] == '/')
    requires forall i :: k < i < |Joined(stack)| ==> Joined(stack)[i] != '/'
    ensures k == |Joined(stack[..|stack| - 1])| && Joined(stack)[..k] == Joined(stack[..|stack| - 1])
  {
    var rest, last := Joined(stack[..|stack| - 1]), stack[|stack| - 1];
    assert Joined(stack) == rest + "/" + last;
    assert Joined(stack)[|rest|] == '/';
    forall i | |rest| < i < |Joined(stack)| ensures Joined(stack)[i] != '/' {
      assert Joined(stack)[i] == last[i - |rest| - 1] && last[i - |rest| - 1] in last;
    }
  }

  // ".." in append_path_component
  method PopComponent(dst: array<char>, ghost stack: seq<string>)
    requires Canonical(stack) && Holds(dst, Print(stack)) && 2 <= dst.Length
    modifies dst
    ensures Holds(dst, Print(Step(stack, "..")))
  {
    PrintFacts(stack);
    var cur := StrLen(dst, Print(stack));
    if cur <= 1 {
      dst[0] := '/';
      dst[1] := NUL;
      return;
    }
    var slash := LastSlash(dst, cur);
    ghost var j := Joined(stack);
    assert forall i :: 0 <= i < cur ==> dst[i] == j[i];
    LastSlashOfJoined(stack, slash);
    ghost var rest := stack[..|stack| - 1];
    PrintFacts(rest);
    assert slash == |Joined(rest)|;
    if slash <= 0 {
      assert dst[0] == j[0] == '/';
      assert rest == [];
      dst[1] := NUL;
    } else {
      dst[slash] := NUL;
    }
  }

  // memcpy
  method CopyIn(dst: array<char>, at: nat, component: string)
    requires at + |component| <= dst.Length
    modifies dst
    ensures dst[..at + |component|] == old(dst[..at]) + component
  {
    var i := 0;
    while i < |component|
      invariant 0 <= i <= |component|
      invariant dst[..at + i] == old(dst[..at]) + component[..i]
    {
      dst[at + i] := component[i];
      i := i + 1;
    }
  }

  // An ordinary component in append_path_component.
  method PushComponent(dst: array<char>, component: string, ghost stack: seq<string>) returns (ok: bool)
    requires Canonical(stack) && Holds(dst, Print(stack)) && Name(component)
    modifies dst
    ensures ok <==> |Print(stack + [component])| < dst.Length
    ensures ok ==> Holds(dst, Print(stack + [component]))
  {
    PrintFacts(stack);
    assert Print(stack + [component]) == Joined(stack) + "/" + component by {
      assert (stack + [component])[..|stack|] == stack;
    }
    var cur := StrLen(dst, Print(stack));
    if cur > 1 {
      if cur + 1 >= dst.Length {
        return false;
      }
      dst[cur] := '/';
      cur := cur + 1;
      dst[cur] := NUL;
    }
    assert dst[..cur] == Joined(stack) + "/";
    if cur + |component| >= dst.Length {
      return false;
    }
    CopyIn(dst, cur, component);
    dst[cur + |component|] := NUL;
    return true;
  }

  // append_path_component
  method AppendComponent(dst: array<char>, component: string, ghost stack: seq<string>) returns (ok: bool)
    requires Canonical(stack) && Holds(dst, Print(stack)) && Plain(component) && 2 <= dst.Length
    modifies dst
    ensures ok <==> |Print(Step(stack, component))| < dst.Length
    ensures ok ==> Holds(dst, Print(Step(stack, component)))
  {
    if component == "" || component == "." {
      return true;
    }
    if component == ".." {
      PopComponent(dst, stack);
      return true;
    }
    ok := PushComponent(dst, component, stack);
  }

  lemma OneMorePiece(pieces: seq<string>, c: string, size: nat)
    ensures Fold(pieces + [c]) == Step(Fold(pieces), c)
    ensures Fits(pieces + [c], size) <==> Fits(pieces, size) && |Print(Step(Fold(pieces), c))| < size
  {
    assert (pieces + [c])[..|pieces|] == pieces;
  }

  lemma {:induction false} SplitBoth(a: string, b: string)
    ensures Split(a + "/" + b) == Split(a) + Split(b)
  {
    hide Split, Extend;
    if b == [] {
      SplitSlash(a);
      SplitEmpty();
      assert a + "/" + b == a + "/";
    } else {
      var c, x := b[..|b| - 1], b[|b| - 1];
      SplitBoth(a, c);
      var s := a + "/" + b;
      assert s[..|s| - 1] == a + "/" + c && s[|s| - 1] == x;
      SplitLast(s);
      SplitLast(b);
      ExtendRight(Split(a), Split(c), x);
    }
  }

  lemma SplitEmpty()
    ensures Split("") == [""]
  {
  }

  lemma SplitLast(s: string)
    requires s != ""
    ensures Split(s) == Extend(Split(s[..|s| - 1]), s[|s| - 1])
  {
  }

  lemma ExtendRight(l: seq<string>, r: seq<string>, x: char)
    requires r != []
    ensures Extend(l + r, x) == l + Extend(r, x)
  {
    assert (l + r)[..|l + r| - 1] == l + r[..|r| - 1];
  }

  lemma {:induction false} FitsBefore(x: seq<string>, y: seq<string>, size: nat)
    requires Fits(x + y, size)
    ensures Fits(x, size)
  {
    if y == [] {
      assert x + y == x;
    } else {
      assert (x + y)[..|x + y| - 1] == x + y[..|y| - 1];
      FitsBefore(x, y[..|y| - 1], size);
    }
  }

  // What does not fit at a slash does not fit in the end.
  lemma FitsPrefix(path: string, end: nat, size: nat)
    requires end <= |path| && (end < |path| ==> path[end] == '/')
    ensures Fits(Split(path), size) ==> Fits(Split(path[..end]), size)
  {
    if end < |path| {
      var b := path[end + 1..];
      assert path == path[..end] + "/" + b;
      SplitBoth(path[..end], b);
      if Fits(Split(path), size) {
        FitsBefore(Split(path[..end]), Split(b), size);
      }
    } else {
      assert path[..end] == path;
    }
  }

  // The stack after the first p characters, all of whose stacks have fitted.
  ghost predicate Reached(path: string, p: nat, stack: seq<string>, size: nat)
    requires p <= |path|
  {
    Fold(Split(path[..p])) == stack && Fits(Split(path[..p]), size) && Canonical(stack)
  }

  lemma ReachedStart(path: string, size: nat)
    requires 2 <= size
    ensures Reached(path, 0, [], size)
  {
    hide Split, Fold, Fits, Step;
    assert path[..0] == "";
    SplitEmpty();
    NothingYet(size);
  }

  lemma NothingYet(size: nat)
    requires 2 <= size
    ensures Fold([""]) == [] && Fits([""], size)
  {
    assert [""][..0] == [];
  }

  lemma ReachedFits(path: string, p: nat, stack: seq<string>, size: nat)
    requires p <= |path| && Reached(path, p, stack, size)
    ensures |Print(stack)| < size
  {
  }

  // A component between a slash and the next one, or the end; it may be empty.
  lemma ReachNext(path: string, p: nat, end: nat, stack: seq<string>, size: nat)
    requires p < end <= |path| && NUL !in path && path[p] == '/' && '/' !in path[p + 1..end]
    requires Reached(path, p, stack, size)
    ensures var next := Step(stack, path[p + 1..end]);
            && Canonical(next)
            && (|Print(next)| < size ==> Reached(path, end, next, size))
            && (|Print(next)| >= size ==> !Fits(Split(path[..end]), size))
  {
    var c := path[p + 1..end];
    assert path[..end] == path[..p] + "/" + c;
    SplitPiece(path[..p], c);
    OneMorePiece(Split(path[..p]), c, size);
    assert NUL !in c;
  }

  // Slashes in a row leave the stack as it is.
  method SkipSlashes(path: string, p: nat, ghost size: nat, ghost stack: seq<string>) returns (start: nat)
    requires p < |path| && path[p] == '/' && NUL !in path && Reached(path, p, stack, size)
    ensures p < start <= |path| && path[start - 1] == '/' && (start < |path| ==> path[start] != '/')
    ensures Reached(path, start - 1, stack, size)
  {
    hide Reached, Print, Canonical;
    start := p;
    while start < |path| && path[start] == '/'
      invariant p <= start <= |path| && (p < start ==> path[start - 1] == '/')
      invariant Reached(path, start, stack, size)
      invariant p < start ==> Reached(path, start - 1, stack, size)
    {
      assert path[start + 1..start + 1] == "";
      ReachNext(path, start, start + 1, stack, size);
      ReachedFits(path, start, stack, size);
      start := start + 1;
    }
  }

  method FindSlash(path: string, start: nat) returns (end: nat)
    requires start <= |path|
    ensures start <= end <= |path| && '/' !in path[start..end] && (end < |path| ==> path[end] == '/')
  {
    end := start;
    while end < |path| && path[end] != '/'
      invariant start <= end <= |path| && '/' !in path[start..end]
    {
      assert path[start..end + 1] == path[start..end] + [path[end]];
      end := end + 1;
    }
  }

  // One turn of the loop of normalize_absolute_path.
  method NextComponent(path: string, p: nat, dst: array<char>, ghost stack: seq<string>)
    returns (ok: bool, end: nat, ghost next: seq<string>)
    requires p < |path| && path[p] == '/' && NUL !in path && 2 <= dst.Length
    requires Reached(path, p, stack, dst.Length) && Canonical(stack) && Holds(dst, Print(stack))
    modifies dst
    ensures ok ==> p < end <= |path| && (end < |path| ==> path[end] == '/')
    ensures ok ==> Reached(path, end, next, dst.Length) && Canonical(next) && Holds(dst, Print(next))
    ensures !ok ==> !Fits(Split(path), dst.Length)
  {
    hide Reached, Fits, Fold, Split, Step, Print, Canonical;
    var start := SkipSlashes(path, p, dst.Length, stack);
    end := FindSlash(path, start);
    var component := path[start..end];
    ReachNext(path, start - 1, end, stack, dst.Length);
    FitsPrefix(path, end, dst.Length);
    next := Step(stack, component);
    ok := AppendComponent(dst, component, stack);
  }

  // normalize_absolute_path: it succeeds iff the path is absolute and every stack
  // on the way fits the buffer, and then the buffer holds the printed stack.
  method Normalize(path: string, dst: array<char>) returns (ok: bool)
    requires NUL !in path
    modifies dst
    ensures ok <==> path != "" && path[0] == '/' && 2 <= dst.Length && Fits(Split(path), dst.Length)
    ensures ok ==> Holds(dst, Print(Fold(Split(path)))) && Canonical(Fold(Split(path)))
  {
    if path == "" || path[0] != '/' || dst.Length < 2 {
      return false;
    }
    dst[0] := '/';
    dst[1] := NUL;
    assert Holds(dst, Print([])) && Canonical([]);
    hide Reached, Fits, Fold, Split, Print, Canonical, Holds;
    ReachedStart(path, dst.Length);
    var p := 0;
    ghost var stack: seq<string> := [];
    while p < |path|
      invariant 0 <= p <= |path| && (p < |path| ==> path[p] == '/')
      invariant Reached(path, p, stack, dst.Length) && Canonical(stack) && Holds(dst, Print(stack))
    {
      var end: nat;
      ok, end, stack := NextComponent(path, p, dst, stack);
      if !ok {
        return false;
      }
      p := end;
    }
    ReachedAll(path, stack, dst.Length);
    return true;
  }

  lemma ReachedAll(path: string, stack: seq<string>, size: nat)
    requires Reached(path, |path|, stack, size)
    ensures Fold(Split(path)) == stack && Fits(Split(path), size)
  {
    assert path[..|path|] == path;
  }
}
