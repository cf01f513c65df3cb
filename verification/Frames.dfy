/** Frames of the graph-structured stack, and what merging two of them preserves (src/lalr.ts:732-755). */
module Frames {
  import opened Options
  import opened Grammars
  import opened FirstSets
  import opened Automata
  import opened Tables
  import opened Machine
  import opened Restore

  /** A frame never changes once made; `id` tells it from every other one. */
  datatype Frame = Frame(id: nat, state: nat, value: Tree, parent: Option<Frame>)

  // Two paths converge when they have the same state on the same parent.
  datatype Key = Key(state: nat, parent: Option<nat>)

  function KeyOf(f: Frame): Key {
    Key(f.state, match f.parent case None => None case Some(p) => Some(p.id))
  }

  function StatesOf(f: Frame): (s: seq<nat>)
    ensures |s| > 0 && s[|s| - 1] == f.state
  {
    match f.parent
    case None => [f.state]
    case Some(p) => StatesOf(p) + [f.state]
  }

  function ValuesOf(f: Frame): seq<Tree> {
    match f.parent
    case None => []
    case Some(p) => ValuesOf(p) + [f.value]
  }

  function StackOf(f: Frame): Stack {
    Stack(StatesOf(f), ValuesOf(f))
  }

  lemma {:induction false} StackShaped(f: Frame)
    ensures Shaped(StackOf(f)) && Top(StackOf(f)) == f.state
  {
    if f.parent.Some? { StackShaped(f.parent.value); }
  }

  lemma StackPushed(f: Frame, p: Frame)
    requires f.parent == Some(p)
    ensures StackOf(f) == Push(StackOf(p), f.state, f.value)
  {
  }

  // ----- identities -----

  predicate SameId(f: Frame, h: Frame) {
    f.id == h.id
  }

  predicate ParentIn(made: set<Frame>, f: Frame) {
    f.parent.Some? ==> f.parent.value in made
  }

  /** `made` holds every frame so far, with its ancestors; all ids are below `n` and differ. */
  ghost predicate Family(made: set<Frame>, n: nat) {
    && (forall f | f in made :: f.id < n)
    && (forall f, h {:trigger SameId(f, h)} | f in made && h in made && SameId(f, h) :: f == h)
    && (forall f {:trigger ParentIn(made, f)} | f in made :: ParentIn(made, f))
  }

  lemma FamilyGrows(made: set<Frame>, n: nat, f: Frame)
    requires Family(made, n) && f.id == n && ParentIn(made, f)
    ensures Family(made + {f}, n + 1)
  {
    forall h | h in made + {f} ensures ParentIn(made + {f}, h) {
      assert ParentIn(made, h);
    }
  }

  /** Converging frames stand on the same stack. */
  lemma SameKey(made: set<Frame>, n: nat, f: Frame, h: Frame)
    requires Family(made, n) && f in made && h in made && KeyOf(f) == KeyOf(h)
    ensures f.parent == h.parent && StatesOf(f) == StatesOf(h)
  {
    if f.parent.Some? {
      assert ParentIn(made, f) && ParentIn(made, h);
      assert SameId(f.parent.value, h.parent.value);
    }
  }

  // ----- values -----

  /** The frame's stack is one the machine can have built from what was consumed. */
  ghost predicate FrameOk(g: Grammar, b: Basis, input: seq<Token>, f: Frame, pos: nat) {
    Fine(g, b, input, StackOf(f), pos)
  }

  /** Merging converging frames keeps both values: they derive the same symbol over the same tokens. */
  lemma MergeOk(g: Grammar, b: Basis, input: seq<Token>, e: Frame, f: Frame, p: Frame, pos: nat, id: nat)
    requires AutomatonOk(g, b.auto) && FrameOk(g, b, input, e, pos) && FrameOk(g, b, input, f, pos)
    requires e.parent == f.parent == Some(p) && e.state == f.state
    ensures FrameOk(g, b, input, Frame(id, e.state, Both(e.value, f.value), e.parent), pos)
  {
    hide AutomatonOk, Fine, StatesOf, ValuesOf;
    StackShaped(p);
    StackPushed(e, p);
    StackPushed(f, p);
    StackPushed(Frame(id, e.state, Both(e.value, f.value), e.parent), p);
    FineMerge(g, b, input, StackOf(p), e.state, e.value, f.value, pos);
  }

  // ----- popping -----

  /** The `n`-th ancestor, if the stack is that deep. */
  function Ancestor(f: Frame, n: nat): Option<Frame> {
    if n == 0 then Some(f)
    else match f.parent case None => None case Some(p) => Ancestor(p, n - 1)
  }

  lemma {:induction false} AncestorStack(f: Frame, n: nat)
    requires n <= |ValuesOf(f)|
    ensures Ancestor(f, n).Some?
    ensures var p := Ancestor(f, n).value; var base := |ValuesOf(f)| - n;
            |StatesOf(f)| == |ValuesOf(f)| + 1
            && StatesOf(p) == StatesOf(f)[..base + 1] && ValuesOf(p) == ValuesOf(f)[..base]
  {
    StackShaped(f);
    if n > 0 {
      var p := f.parent.value;
      AncestorStack(p, n - 1);
      var base := |ValuesOf(f)| - n;
      assert StatesOf(f)[..base + 1] == StatesOf(p)[..base + 1];
      assert ValuesOf(f)[..base] == ValuesOf(p)[..base];
    }
  }

  lemma {:induction false} AncestorMade(made: set<Frame>, k: nat, f: Frame, n: nat)
    requires Family(made, k) && f in made && Ancestor(f, n).Some?
    ensures Ancestor(f, n).value in made
  {
    if n > 0 {
      assert ParentIn(made, f);
      AncestorMade(made, k, f.parent.value, n - 1);
    }
  }
}
