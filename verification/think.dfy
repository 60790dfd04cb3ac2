/** Removal of reasoning blocks from a model's answer:
    `re.sub(r"<think>.*?</think>", "", answer, flags=re.DOTALL)`.

    The substitution scans left to right. At each position it tries the pattern:
    the opening tag, then the shortest run of any characters (newlines included)
    that is followed by the closing tag. A match is deleted and the scan resumes
    after it; otherwise one character is kept and the scan moves on by one. It is
    a single pass, so text that forms a block only once an inner block is gone
    stays in the result. */
module Think {
  import opened Wrappers
  import opened Text

  const Open: string := "<think>"
  const Close: string := "</think>"

  /** The single left-to-right pass of the substitution. */
  function RemoveThinkBlocks(s: string): (r: string)
    ensures |r| <= |s|
    decreases |s|
  {
    if s == [] then []
    else if At(s, 0, Open) && Find(s, Close, |Open|).Some? then
      RemoveThinkBlocks(s[Find(s, Close, |Open|).value + |Close|..])
    else
      [s[0]] + RemoveThinkBlocks(s[1..])
  }

  /** Text with no opening tag passes through unchanged. */
  lemma {:induction false} RemoveWithoutOpen(s: string)
    requires !Contains(s, Open)
    ensures RemoveThinkBlocks(s) == s
  {
    if s != [] {
      assert !At(s, 0, Open);
      forall i: nat | i <= |s[1..]|
        ensures !At(s[1..], i, Open)
      {
        AtTail(s, i, Open);
      }
      RemoveWithoutOpen(s[1..]);
    }
  }

  /** Text with no closing tag passes through unchanged: an opening tag that is
      never closed is kept. */
  lemma {:induction false} RemoveWithoutClose(s: string)
    requires !Contains(s, Close)
    ensures RemoveThinkBlocks(s) == s
  {
    if s != [] {
      assert Find(s, Close, |Open|).None?;
      forall i: nat | i <= |s[1..]|
        ensures !At(s[1..], i, Close)
      {
        AtTail(s, i, Close);
      }
      RemoveWithoutClose(s[1..]);
    }
  }

  /** A prefix `a` in which no opening tag starts is kept as it is. */
  lemma {:induction false} RemoveKeepsPrefix(a: string, b: string)
    requires forall p: nat :: p < |a| ==> !At(a + b, p, Open)
    ensures RemoveThinkBlocks(a + b) == a + RemoveThinkBlocks(b)
  {
    if a != [] {
      var s := a + b;
      assert !At(s, 0, Open);
      assert s[1..] == a[1..] + b;
      forall p: nat | p < |a[1..]|
        ensures !At(a[1..] + b, p, Open)
      {
        AtTail(s, p, Open);
      }
      RemoveKeepsPrefix(a[1..], b);
      calc {
        RemoveThinkBlocks(s);
        [s[0]] + RemoveThinkBlocks(s[1..]);
        [a[0]] + (a[1..] + RemoveThinkBlocks(b));
        ([a[0]] + a[1..]) + RemoveThinkBlocks(b);
        { assert [a[0]] + a[1..] == a; }
        a + RemoveThinkBlocks(b);
      }
    } else {
      assert a + b == b;
    }
  }

  /** The leftmost block is removed, and removal goes on after it. The block is
      `Open + m + Close` where no closing tag starts inside `m` (the lazy `.*?`
      takes the first closing tag), and it is leftmost because no opening tag
      starts in the text `a` before it. */
  lemma {:induction false} RemoveSpan(a: string, m: string, b: string)
    requires forall p: nat :: p < |a| ==> !At(a + Open, p, Open)
    requires forall q: nat :: q < |m| ==> !At(m + Close, q, Close)
    ensures RemoveThinkBlocks(a + Open + m + Close + b) == a + RemoveThinkBlocks(b)
  {
    var block := Open + m + Close + b;
    assert a + Open + m + Close + b == a + block;
    forall p: nat | p < |a|
      ensures !At(a + block, p, Open)
    {
      assert a + block == (a + Open) + (m + Close + b);
      AtPrefix(a + Open, m + Close + b, p, Open);
    }
    RemoveKeepsPrefix(a, block);
    RemoveLeadingBlock(m, b);
  }

  /** A block at the very start is removed whole. */
  lemma RemoveLeadingBlock(m: string, b: string)
    requires forall q: nat :: q < |m| ==> !At(m + Close, q, Close)
    ensures RemoveThinkBlocks(Open + m + Close + b) == RemoveThinkBlocks(b)
  {
    var s := Open + m + Close + b;
    var j := |Open| + |m|;
    assert s == Open + (m + Close + b);
    assert At(s, 0, Open);
    assert s == (Open + m) + (Close + b);
    assert At(s, j, Close);
    forall k: nat | |Open| <= k < j
      ensures !At(s, k, Close)
    {
      assert s == Open + ((m + Close) + b);
      SliceRight(Open, (m + Close) + b, k - |Open|, k - |Open| + |Close|);
      AtPrefix(m + Close, b, k - |Open|, Close);
    }
    FindFirst(s, Close, |Open|, j);
    assert s[j + |Close|..] == b;
  }

  /** No opening tag starts before position 4 of "<thi<think>". */
  lemma BrokenOpenIsNoTag()
    ensures forall p: nat :: p < 4 ==> !At("<thi" + Open, p, Open)
  {
    forall p: nat | p < 4
      ensures !At("<thi" + Open, p, Open)
    {
      assert ("<thi" + Open)[p + 4] != Open[4];
    }
  }

  /** "<thi<think></think>nk>" is a broken opening tag around an empty block. */
  lemma NestedOpenSplit(b: string)
    ensures "<thi<think></think>" + b == "<thi" + Open + "" + Close + b
  {
    var x := "<thi<think></think>";
    var y := "<thi" + Open + "" + Close;
    assert |x| == |y|;
    forall i | 0 <= i < |x| ensures x[i] == y[i] { }
    assert x == y;
  }

  /** The substitution is one pass: removing a block can bring an opening tag
      together, and that tag stays in the result. */
  lemma NestedOpenSurvives()
    ensures RemoveThinkBlocks("<thi<think></think>nk>") == "<think>"
  {
    var b := "nk>";
    calc {
      RemoveThinkBlocks("<thi<think></think>nk>");
      { NestedOpenSplit(b); assert "<thi<think></think>nk>" == "<thi<think></think>" + b; }
      RemoveThinkBlocks("<thi" + Open + "" + Close + b);
      { BrokenOpenIsNoTag(); RemoveSpan("<thi", "", b); }
      "<thi" + RemoveThinkBlocks(b);
      { RemoveWithoutOpen(b); }
      "<thi" + b;
      "<think>";
    }
  }

  /** "nk></think>" holds a closing tag but no opening one. */
  lemma TailHasNoOpen()
    ensures !Contains("nk></think>", Open)
  {
    var b := "nk></think>";
    forall p: nat | p <= |b|
      ensures !At(b, p, Open)
    {
      if p + |Open| <= |b| {
        assert p <= 4;
        assert b[p..p + |Open|][0] == b[p] && b[p..p + |Open|][1] == b[p + 1];
        if p == 3 {
          assert b[p + 1] == '/' != Open[1];
        } else {
          assert b[p] != '<' == Open[0];
        }
      }
    }
  }

  /** One pass over "<thi<think></think>nk></think>" leaves a complete block behind. */
  lemma OnePassLeavesBlock()
    ensures RemoveThinkBlocks("<thi<think></think>nk></think>") == "<think></think>"
  {
    var b := "nk></think>";
    calc {
      RemoveThinkBlocks("<thi<think></think>nk></think>");
      { NestedOpenSplit(b); assert "<thi<think></think>nk></think>" == "<thi<think></think>" + b; }
      RemoveThinkBlocks("<thi" + Open + "" + Close + b);
      { BrokenOpenIsNoTag(); RemoveSpan("<thi", "", b); }
      "<thi" + RemoveThinkBlocks(b);
      { TailHasNoOpen(); RemoveWithoutOpen(b); }
      "<thi" + b;
      "<think></think>";
    }
  }

  /** An empty block is removed entirely. */
  lemma EmptyBlockRemoved()
    ensures RemoveThinkBlocks("<think></think>") == ""
  {
    RemoveLeadingBlock("", "");
    assert Open + "" + Close + "" == Open + Close == "<think></think>";
  }

  /** Hence the substitution is not idempotent: a second pass removes more. */
  lemma RemoveNotIdempotent()
    ensures var once := RemoveThinkBlocks("<thi<think></think>nk></think>");
            RemoveThinkBlocks(once) != once
  {
    OnePassLeavesBlock();
    EmptyBlockRemoved();
  }
}
