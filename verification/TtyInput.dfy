/**
  The input ring of a terminal and its line editing, in place on a 512-byte
  buffer, against the queue of characters it stands for.
 */
module TtyInput {

  const SIZE: nat := 512

  predicate LineEnd(c: char) {
    c == '\n' || c == '\r'
  }

  // ------------------------------------------------ what editing does to a queue

  // Backspace: the last character, unless it ends a line.
  function EraseLast(q: seq<char>): seq<char> {
    if q == [] || LineEnd(q[|q| - 1]) then q else q[..|q| - 1]
  }

  // Drop from the back while the characters satisfy a test.
  function DropWhile(q: seq<char>, f: char -> bool): seq<char> {
    if q == [] || !f(q[|q| - 1]) then q else DropWhile(q[..|q| - 1], f)
  }

  predicate InLine(c: char) { !LineEnd(c) }
  predicate Blank(c: char) { c == ' ' }
  predicate InWord(c: char) { !LineEnd(c) && c != ' ' }

  function EraseLine(q: seq<char>): seq<char> {
    DropWhile(q, InLine)
  }

  function EraseWord(q: seq<char>): seq<char> {
    DropWhile(DropWhile(q, Blank), InWord)
  }

  // What is dropped is the longest tail of which the test holds throughout.
  lemma {:induction false} DropWhileIsLongest(q: seq<char>, f: char -> bool)
    ensures var r := DropWhile(q, f);
            && r <= q
            && (forall i :: |r| <= i < |q| ==> f(q[i]))
            && (r != [] ==> !f(r[|r| - 1]))
  {
    if q != [] && f(q[|q| - 1]) {
      DropWhileIsLongest(q[..|q| - 1], f);
    }
  }

  // Editing keeps every completed line, and touches nothing but the last one.
  lemma EditKeepsLines(q: seq<char>)
    ensures EraseLine(q) <= EraseWord(q) <= q && EraseLine(q) <= EraseLast(q) <= q
    ensures EraseLine(q) == [] || LineEnd(EraseLine(q)[|EraseLine(q)| - 1])
    ensures forall i :: |EraseLine(q)| <= i < |q| ==> !LineEnd(q[i])
  {
    DropWhileIsLongest(q, InLine);
    DropWhileIsLongest(q, Blank);
    DropWhileIsLongest(DropWhile(q, Blank), InWord);
    EraseWordStaysInLine(q);
  }

  lemma EraseWordStaysInLine(q: seq<char>)
    ensures |EraseLine(q)| <= |EraseWord(q)|
  {
    var line, blank, word := EraseLine(q), DropWhile(q, Blank), EraseWord(q);
    DropWhileIsLongest(q, InLine);
    DropWhileIsLongest(q, Blank);
    DropWhileIsLongest(blank, InWord);
    assert line == [] || LineEnd(q[|line| - 1]);
    assert forall i :: |word| <= i < |blank| ==> InWord(blank[i]) && blank[i] == q[i];
  }

  // ------------------------------------------------------- editing undoes typing

  predicate All(s: seq<char>, f: char -> bool) {
    forall i :: 0 <= i < |s| ==> f(s[i])
  }

  lemma {:induction false} DropAll(q: seq<char>, tail: seq<char>, f: char -> bool)
    requires All(tail, f)
    ensures DropWhile(q + tail, f) == DropWhile(q, f)
  {
    if tail == [] {
      assert q + tail == q;
    } else {
      var n := |tail| - 1;
      assert (q + tail)[..|q + tail| - 1] == q + tail[..n];
      DropAll(q, tail[..n], f);
    }
  }

  // Backspace takes back the character typed last, but no line end.
  lemma EraseUndoesTyping(q: seq<char>, c: char)
    ensures EraseLast(q + [c]) == if LineEnd(c) then q + [c] else q
    ensures EraseLast([]) == []
  {
  }

  // Kill takes back the text of the open line.
  lemma KillUndoesTheLine(q: seq<char>, text: seq<char>)
    requires All(text, InLine) && (q == [] || LineEnd(q[|q| - 1]))
    ensures EraseLine(q + text) == q
  {
    DropAll(q, text, InLine);
  }

  // Word erase takes back the word typed last together with the blanks after it.
  lemma WordEraseUndoesTheWord(q: seq<char>, word: seq<char>, blanks: seq<char>)
    requires All(word, InWord) && All(blanks, Blank) && (q == [] || !InWord(q[|q| - 1]))
    requires word != [] || q == [] || LineEnd(q[|q| - 1])
    ensures EraseWord(q + word + blanks) == q
  {
    DropAll(q + word, blanks, Blank);
    assert DropWhile(q + word, Blank) == q + word;
    DropAll(q, word, InWord);
  }

  // ----------------------------------------------------------------- the ring

  class Ring {
    const buf: array<char>
    var head: nat
    var tail: nat

    ghost predicate Valid()
      reads this
    {
      buf.Length == SIZE && head < SIZE && tail < SIZE
    }

    // The queue, oldest first.
    ghost function Queue(): (q: seq<char>)
      requires Valid()
      reads this, buf
      ensures |q| == Count() < SIZE && (q == [] <==> head == tail)
    {
      if tail <= head then buf[tail..head] else buf[tail..] + buf[..head]
    }

    ghost function Count(): nat
      requires Valid()
      reads this
    {
      if tail <= head then head - tail else head + SIZE - tail
    }

    constructor ()
      ensures Valid() && fresh(buf) && Queue() == []
    {
      buf := new char[SIZE](_ => ' ');
      head, tail := 0, 0;
    }

    // tty_input_prev
    function Prev(index: nat): nat {
      if index == 0 then SIZE - 1 else index - 1
    }

    function Next(index: nat): nat {
      (index + 1) % SIZE
    }

    lemma NextIs(index: nat)
      requires index < SIZE
      ensures Next(index) == if index == SIZE - 1 then 0 else index + 1
    {
    }

    // Writing the ring, as tty_enqueue_input_char_locked does; a full ring drops.
    method Put(c: char) returns (stored: bool)
      requires Valid()
      modifies this`head, buf
      ensures Valid()
      ensures stored <==> |old(Queue())| < SIZE - 1
      ensures Queue() == if stored then old(Queue()) + [c] else old(Queue())
    {
      hide Next;
      NextIs(head);
      var next := Next(head);
      if next == tail {
        return false;
      }
      ghost var front, back := buf[tail..], buf[..head];
      buf[head] := c;
      assert buf[..head + 1] == back + [c];
      if tail <= head {
        assert buf[tail..head + 1] == buf[..head + 1][tail..];
      } else {
        assert buf[tail..] == front;
      }
      head := next;
      return true;
    }

    // Reading one character, as tty_read_to does on a ring that is not empty.
    method Take() returns (c: char)
      requires Valid() && Queue() != []
      modifies this`tail
      ensures Valid()
      ensures [c] + Queue() == old(Queue())
    {
      ghost var q := Queue();
      c := buf[tail];
      tail := (tail + 1) % SIZE;
      assert Queue() == q[1..];
    }

    method DropLast()
      requires Valid() && Queue() != []
      modifies this`head
      ensures Valid()
      ensures Queue() == old(Queue())[..|old(Queue())| - 1]
    {
      ghost var q := Queue();
      head := Prev(head);
      assert Queue() == q[..|q| - 1];
    }

    method Last() returns (c: char)
      requires Valid() && Queue() != []
      ensures c == Queue()[|Queue()| - 1]
    {
      c := buf[Prev(head)];
    }

    method Erase()
      requires Valid()
      modifies this`head
      ensures Valid() && Queue() == EraseLast(old(Queue()))
    {
      if head != tail {
        var c := Last();
        if !LineEnd(c) {
          DropLast();
        }
      }
    }

    method Kill()
      requires Valid()
      modifies this`head
      ensures Valid() && Queue() == EraseLine(old(Queue()))
    {
      hide Queue, Count;
      while head != tail
        invariant Valid()
        invariant EraseLine(Queue()) == EraseLine(old(Queue()))
        decreases Count()
      {
        var c := Last();
        if LineEnd(c) {
          break;
        }
        DropLast();
      }
    }

    // The two loops of word erase.
    method SkipBlanks()
      requires Valid()
      modifies this`head
      ensures Valid() && Queue() == DropWhile(old(Queue()), Blank)
    {
      hide Queue, Count;
      while head != tail
        invariant Valid()
        invariant DropWhile(Queue(), Blank) == DropWhile(old(Queue()), Blank)
        decreases Count()
      {
        var c := Last();
        if LineEnd(c) || c != ' ' {
          break;
        }
        DropLast();
      }
    }

    method SkipWord()
      requires Valid()
      modifies this`head
      ensures Valid() && Queue() == DropWhile(old(Queue()), InWord)
    {
      hide Queue, Count;
      while head != tail
        invariant Valid()
        invariant DropWhile(Queue(), InWord) == DropWhile(old(Queue()), InWord)
        decreases Count()
      {
        var c := Last();
        if LineEnd(c) || c == ' ' {
          break;
        }
        DropLast();
      }
    }

    method WordErase()
      requires Valid()
      modifies this`head
      ensures Valid() && Queue() == EraseWord(old(Queue()))
    {
      SkipBlanks();
      SkipWord();
    }

    // The scan of tty_read_ready_for_id in canonical mode.
    method HasLine() returns (ready: bool)
      requires Valid()
      ensures ready <==> exists i :: 0 <= i < |Queue()| && LineEnd(Queue()[i])
    {
      var pos := tail;
      ghost var k := 0;
      while pos != head
        invariant pos < SIZE && 0 <= k <= Count()
        invariant pos == if tail + k < SIZE then tail + k else tail + k - SIZE
        invariant forall i :: 0 <= i < k ==> !LineEnd(Queue()[i])
        decreases Count() - k
      {
        if LineEnd(buf[pos]) {
          assert LineEnd(Queue()[k]);
          return true;
        }
        pos := (pos + 1) % SIZE;
        k := k + 1;
      }
      return false;
    }
  }
}
