/** Where jumps lead: in a program whose labels are distinct, every label resolves to the code that
    follows it at its one definition. */
module LabelPlaces {
  import opened Options
  import opened Exptype
  import opened Svm
  import opened CompilerLabels

  /** Jumps in `prog` to the labels of `code` lead to what follows them there, when `rest` follows
      `code` in its procedure body. */
  ghost predicate Located(prog: seq<Code>, code: seq<Code>, rest: seq<Code>) {
    code == [] || (LocatedIn(prog, code[0], code[1..] + rest) && Located(prog, code[1..], rest))
  }

  ghost predicate LocatedIn(prog: seq<Code>, c: Code, after: seq<Code>) {
    match c
    case Label(l) => Resolve(prog, l) == Some(after)
    case IfTrue(a, b) => Located(prog, a, after) && Located(prog, b, after)
    case IfFalse(a, b) => Located(prog, a, after) && Located(prog, b, after)
    case MakeClosure(_, _, body) => Located(prog, body, [])
    case _ => true
  }

  lemma {:induction false} LocatedConcat(prog: seq<Code>, a: seq<Code>, b: seq<Code>, rest: seq<Code>)
    ensures Located(prog, a + b, rest) <==> Located(prog, a, b + rest) && Located(prog, b, rest)
  {
    if a == [] {
      assert a + b == b;
    } else {
      assert (a + b)[1..] == a[1..] + b;
      assert a[1..] + b + rest == a[1..] + (b + rest);
      LocatedConcat(prog, a[1..], b, rest);
    }
  }

  lemma {:induction false} FindDefined(code: seq<Code>, l: string, rest: seq<Code>)
    ensures Find(code, l, rest).Some? <==> l in Defined(code)
    decreases code
  {
    if code != [] {
      FindHeadDefined(code[0], l, code[1..] + rest);
      FindDefined(code[1..], l, rest);
    }
  }

  lemma {:induction false} FindHeadDefined(c: Code, l: string, after: seq<Code>)
    ensures FindHead(c, l, after).Some? <==> l in DefinedIn(c)
    decreases c
  {
    match c {
      case IfTrue(a, b) =>
        FindDefined(a, l, after);
        FindDefined(b, l, after);
      case IfFalse(a, b) =>
        FindDefined(a, l, after);
        FindDefined(b, l, after);
      case MakeClosure(_, _, body) =>
        FindDefined(body, l, []);
      case _ =>
    }
  }

  ghost predicate Agrees(prog: seq<Code>, code: seq<Code>, rest: seq<Code>) {
    Distinct(Defined(code)) && forall l | l in Defined(code) :: Resolve(prog, l) == Find(code, l, rest)
  }

  ghost predicate AgreesIn(prog: seq<Code>, c: Code, after: seq<Code>) {
    Distinct(DefinedIn(c)) && forall l | l in DefinedIn(c) :: Resolve(prog, l) == FindHead(c, l, after)
  }

  lemma AgreesSplit(prog: seq<Code>, code: seq<Code>, rest: seq<Code>)
    requires code != [] && Agrees(prog, code, rest)
    ensures AgreesIn(prog, code[0], code[1..] + rest) && Agrees(prog, code[1..], rest)
  {
    var after := code[1..] + rest;
    var (head, tail) := (DefinedIn(code[0]), Defined(code[1..]));
    forall l
      ensures head[l] + tail[l] <= 1
      ensures l in head ==> Resolve(prog, l) == FindHead(code[0], l, after)
      ensures l in tail ==> Resolve(prog, l) == Find(code[1..], l, rest)
    {
      assert Defined(code)[l] == head[l] + tail[l];
      FindHeadDefined(code[0], l, after);
    }
  }

  lemma AgreesBlocks(prog: seq<Code>, c: Code, a: seq<Code>, b: seq<Code>, after: seq<Code>)
    requires (c == IfTrue(a, b) || c == IfFalse(a, b)) && AgreesIn(prog, c, after)
    ensures Agrees(prog, a, after) && Agrees(prog, b, after)
  {
    var (first, second) := (Defined(a), Defined(b));
    forall l
      ensures first[l] + second[l] <= 1
      ensures l in first ==> Resolve(prog, l) == Find(a, l, after)
      ensures l in second ==> Resolve(prog, l) == Find(b, l, after)
    {
      assert DefinedIn(c)[l] == first[l] + second[l];
      FindDefined(a, l, after);
    }
  }

  lemma {:induction false} LocatedSelf(prog: seq<Code>, code: seq<Code>, rest: seq<Code>)
    requires Agrees(prog, code, rest)
    ensures Located(prog, code, rest)
    decreases code
  {
    if code != [] {
      AgreesSplit(prog, code, rest);
      LocatedInSelf(prog, code[0], code[1..] + rest);
      LocatedSelf(prog, code[1..], rest);
    }
  }

  lemma {:induction false} LocatedInSelf(prog: seq<Code>, c: Code, after: seq<Code>)
    requires AgreesIn(prog, c, after)
    ensures LocatedIn(prog, c, after)
    decreases c
  {
    match c {
      case IfTrue(a, b) =>
        AgreesBlocks(prog, c, a, b, after);
        LocatedSelf(prog, a, after);
        LocatedSelf(prog, b, after);
      case IfFalse(a, b) =>
        AgreesBlocks(prog, c, a, b, after);
        LocatedSelf(prog, a, after);
        LocatedSelf(prog, b, after);
      case MakeClosure(_, _, body) =>
        LocatedSelf(prog, body, []);
      case _ =>
    }
  }

  /** In a program with distinct labels every label is where it stands. */
  lemma ProgramLocated(prog: seq<Code>)
    requires Distinct(Defined(prog))
    ensures Located(prog, prog, [])
  {
    LocatedSelf(prog, prog, []);
  }
}
