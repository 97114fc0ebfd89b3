/** A reading of a sequence of lines as indented XML: every line is an
    opening tag, a closing tag or a complete element (a leaf), and its
    leading tabs must equal the number of elements open around it. `Walk`
    is the reference against which the DAT writer's output is checked. */
module Nesting {
  import opened Text
  import opened Catalog

  /** Number of leading tab characters. */
  function Tabs(s: string): (n: nat)
    ensures n <= |s|
    ensures forall i :: 0 <= i < n ==> s[i] == '\t'
    ensures n < |s| ==> s[n] != '\t'
  {
    if s != [] && s[0] == '\t' then 1 + Tabs(s[1..]) else 0
  }

  /** The line without its indentation. */
  function Body(s: string): string {
    s[Tabs(s)..]
  }

  predicate IsTagStop(c: char) {
    c == ' ' || c == '>' || c == '/'
  }

  /** The element name at the start of `s`: everything up to a blank, `>`
      or `/`. */
  function TagName(s: string): (t: string)
    ensures |t| <= |s| && t == s[..|t|]
    ensures forall i :: 0 <= i < |t| ==> !IsTagStop(t[i])
  {
    if s == [] || IsTagStop(s[0]) then [] else [s[0]] + TagName(s[1..])
  }

  datatype LineKind = Open(tag: string) | Close(tag: string) | Leaf

  /** How a line body reads: `</t…` closes `t`; text, a declaration `<?…`,
      a self-closing `<…/>` and `<t…>…</t>` on one line are leaves; any
      other `<t…` opens `t`. */
  function Kind(b: string): LineKind {
    if StartsWith(b, "</") then Close(TagName(b[2..]))
    else if b == [] || b[0] != '<' || StartsWith(b, "<?") || EndsWith(b, "/>") then Leaf
    else if EndsWith(b, "</" + TagName(b[1..]) + ">") then Leaf
    else Open(TagName(b[1..]))
  }

  /** The stack of open elements after line `l`, or None when `l` closes
      the wrong element or is indented wrongly. */
  function StepLine(l: string, st: seq<string>): Option<seq<string>> {
    var d := Tabs(l);
    match Kind(Body(l))
    case Open(t) => if d == |st| then Some(st + [t]) else None
    case Close(t) => if |st| > 0 && d == |st| - 1 && st[|st| - 1] == t then Some(st[..|st| - 1]) else None
    case Leaf => if d == |st| then Some(st) else None
  }

  function Walk(ls: seq<string>, st: seq<string>): Option<seq<string>>
    decreases |ls|
  {
    if ls == [] then Some(st)
    else
      match StepLine(ls[0], st)
      case None => None
      case Some(st') => Walk(ls[1..], st')
  }

  /** `ls` is a run of complete elements and leaves inside the elements `st`. */
  predicate Balanced(ls: seq<string>, st: seq<string>) {
    Walk(ls, st) == Some(st)
  }

  predicate LeafAt(l: string, depth: nat) {
    Tabs(l) == depth && Kind(Body(l)).Leaf?
  }

  predicate AllLeavesAt(ls: seq<string>, depth: nat) {
    forall k :: 0 <= k < |ls| ==> LeafAt(ls[k], depth)
  }

  function Then(r: Option<seq<string>>, ls: seq<string>): Option<seq<string>> {
    match r
    case None => None
    case Some(st) => Walk(ls, st)
  }

  /** Walking a concatenation walks the parts in turn. */
  lemma {:induction false} WalkConcat(a: seq<string>, b: seq<string>, st: seq<string>)
    ensures Walk(a + b, st) == Then(Walk(a, st), b)
    decreases |a|
  {
    if a == [] {
      assert a + b == b;
    } else {
      assert (a + b)[0] == a[0];
      assert (a + b)[1..] == a[1..] + b;
      match StepLine(a[0], st)
      case None =>
      case Some(st') => WalkConcat(a[1..], b, st');
    }
  }

  lemma BalancedConcat(a: seq<string>, b: seq<string>, st: seq<string>)
    requires Balanced(a, st) && Balanced(b, st)
    ensures Balanced(a + b, st)
  {
    WalkConcat(a, b, st);
  }

  lemma BalancedEmpty(st: seq<string>)
    ensures Balanced([], st)
  {
  }

  /** An opening line, a balanced inside and the matching closing line. */
  lemma BalancedElement(open: string, inner: seq<string>, close: string, st: seq<string>, t: string)
    requires StepLine(open, st) == Some(st + [t])
    requires Balanced(inner, st + [t])
    requires StepLine(close, st + [t]) == Some(st)
    ensures Balanced([open] + inner + [close], st)
  {
    WalkConcat([open], inner + [close], st);
    assert Walk([open], st) == Walk([], st + [t]);
    WalkConcat(inner, [close], st + [t]);
    assert Walk([close], st + [t]) == Walk([], st);
    assert [open] + inner + [close] == [open] + (inner + [close]);
  }

  lemma {:induction false} LeavesBalanced(ls: seq<string>, st: seq<string>)
    requires AllLeavesAt(ls, |st|)
    ensures Balanced(ls, st)
    decreases |ls|
  {
    if ls != [] {
      assert LeafAt(ls[0], |st|);
      assert AllLeavesAt(ls[1..], |st|) by {
        forall k | 0 <= k < |ls[1..]|
          ensures LeafAt(ls[1..][k], |st|)
        {
          assert ls[1..][k] == ls[k + 1];
        }
      }
      LeavesBalanced(ls[1..], st);
    }
  }

  lemma AllLeavesConcat(a: seq<string>, b: seq<string>, depth: nat)
    requires AllLeavesAt(a, depth) && AllLeavesAt(b, depth)
    ensures AllLeavesAt(a + b, depth)
  {
    forall k | 0 <= k < |a + b|
      ensures LeafAt((a + b)[k], depth)
    {
      if k < |a| {
        assert (a + b)[k] == a[k];
      } else {
        assert (a + b)[k] == b[k - |a|];
      }
    }
  }

  /** The name of an element is read up to the first stop character. */
  lemma {:induction false} TagNameOf(t: string, rest: string)
    requires forall i :: 0 <= i < |t| ==> !IsTagStop(t[i])
    requires rest != [] && IsTagStop(rest[0])
    ensures TagName(t + rest) == t
    decreases |t|
  {
    if t == [] {
      assert t + rest == rest;
    } else {
      assert (t + rest)[0] == t[0];
      assert (t + rest)[1..] == t[1..] + rest;
      TagNameOf(t[1..], rest);
      assert t == [t[0]] + t[1..];
    }
  }
}
