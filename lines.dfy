/** A text file as the sequence of its lines, each keeping its line terminator, the way
    iterating over a Python file object (or `readlines()`) presents it. */
module Lines {
  import opened Text
  import opened Seqs

  /** One line as read: non-empty, with a newline at most as its last character. */
  predicate IsLine(l: string) {
    l != [] && '\n' !in l[..|l| - 1]
  }

  predicate Terminated(l: string) {
    l != [] && l[|l| - 1] == '\n'
  }

  /** What reading a file can produce: lines, all terminated except possibly the last. */
  predicate WellFormed(ls: seq<string>) {
    (forall k :: 0 <= k < |ls| ==> IsLine(ls[k])) &&
    (forall k :: 0 <= k < |ls| - 1 ==> Terminated(ls[k]))
  }

  /** The lines of the file content `c`, each cut just after its `'\n'`. */
  function ReadLines(c: string): seq<string>
    decreases |c|
  {
    if c == [] then []
    else if '\n' in c then
      var i := IndexOf(c, '\n');
      [c[..i + 1]] + ReadLines(c[i + 1..])
    else [c]
  }

  /** Reading loses nothing: the lines put back together are the content. */
  lemma {:induction false} ReadLinesConcat(c: string)
    ensures Concat(ReadLines(c)) == c
    decreases |c|
  {
    if c != [] && '\n' in c {
      var i := IndexOf(c, '\n');
      ReadLinesConcat(c[i + 1..]);
      assert c == c[..i + 1] + c[i + 1..];
    }
  }

  lemma {:induction false} ConsWellFormed(l: string, ls: seq<string>)
    requires IsLine(l) && WellFormed(ls)
    requires ls != [] ==> Terminated(l)
    ensures WellFormed([l] + ls)
  {
    var r := [l] + ls;
    forall k | 1 <= k < |r| ensures r[k] == ls[k - 1] {}
  }

  /** Reading produces well-formed lines. */
  lemma {:induction false} ReadLinesWellFormed(c: string)
    ensures WellFormed(ReadLines(c))
    decreases |c|
  {
    if c != [] && '\n' in c {
      var i := IndexOf(c, '\n');
      var l := c[..i + 1];
      assert l[..|l| - 1] == c[..i];
      ReadLinesWellFormed(c[i + 1..]);
      ConsWellFormed(l, ReadLines(c[i + 1..]));
    }
  }

  /** Well-formed lines written out one after another read back as the same lines. */
  lemma {:induction false} ConcatReadLines(ls: seq<string>)
    requires WellFormed(ls)
    ensures ReadLines(Concat(ls)) == ls
    decreases |ls|
  {
    if ls != [] {
      var l := ls[0];
      var rest := ls[1..];
      assert IsLine(l);
      assert forall k :: 0 <= k < |rest| ==> rest[k] == ls[k + 1];
      assert WellFormed(rest);
      var c := Concat(ls);
      assert c == l + Concat(rest);
      if '\n' in c {
        var i := IndexOf(c, '\n');
        assert c[..|l| - 1] == l[..|l| - 1];
        if rest == [] {
          assert c == l;
          assert i == |l| - 1;
          assert c[i + 1..] == [];
        } else {
          assert Terminated(l);
          assert c[|l| - 1] == '\n';
          assert i == |l| - 1;
          assert c[..i + 1] == l;
          assert c[i + 1..] == Concat(rest);
          ConcatReadLines(rest);
        }
      } else {
        assert c == l;
      }
    }
  }

  lemma {:induction false} ConcatAppend(ls: seq<string>, l: string)
    ensures Concat(ls + [l]) == Concat(ls) + l
    decreases |ls|
  {
    if ls == [] {
      assert [] + [l] == [l];
    } else {
      assert (ls + [l])[1..] == ls[1..] + [l];
      ConcatAppend(ls[1..], l);
    }
  }

  predicate AllLines(ls: seq<string>) {
    forall l :: l in ls ==> IsLine(l)
  }

  predicate AllTerminated(ls: seq<string>) {
    forall l :: l in ls ==> Terminated(l)
  }

  /** Terminated lines followed by well-formed lines are well formed. */
  lemma {:induction false} WellFormedConcat(a: seq<string>, b: seq<string>)
    requires AllLines(a) && AllTerminated(a) && WellFormed(b)
    ensures WellFormed(a + b)
  {
    var r := a + b;
    forall k | 0 <= k < |r| ensures IsLine(r[k]) && (k < |r| - 1 ==> Terminated(r[k])) {
      if k < |a| {
        assert r[k] == a[k] && a[k] in a;
      } else {
        assert r[k] == b[k - |a|];
      }
    }
  }

  lemma {:induction false} WellFormedSplit(ls: seq<string>)
    requires WellFormed(ls) && ls != []
    ensures AllLines(ls[..|ls| - 1]) && AllTerminated(ls[..|ls| - 1]) && IsLine(ls[|ls| - 1])
  {
    var p := ls[..|ls| - 1];
    forall l | l in p ensures IsLine(l) && Terminated(l) {
      var k :| 0 <= k < |p| && p[k] == l;
      assert ls[k] == l;
    }
  }

  /** Dropping lines keeps a sequence of lines well formed. */
  lemma {:induction false} FilterWellFormed(ls: seq<string>, keep: string -> bool)
    requires WellFormed(ls)
    ensures WellFormed(Filter(ls, keep))
  {
    if ls != [] {
      var p := ls[..|ls| - 1];
      var x := ls[|ls| - 1];
      WellFormedSplit(ls);
      var fp := Filter(p, keep);
      assert AllLines(fp) && AllTerminated(fp);
      if keep(x) {
        assert WellFormed([x]);
        WellFormedConcat(fp, [x]);
      } else {
        WellFormedConcat(fp, []);
        assert fp + [] == fp;
      }
    }
  }
}
