/** How the interpreter finds the form a name selects: two bounds close in on the table of keywords, character
    by character (kscm/scheme/eval.c). */
module KeywordSearch {
  import opened Analyzer

  const COUNT: nat := 17

  function Word(i: nat): string {
    if i < |KEYWORDS| then KEYWORDS[i].0 else ""
  }

  /** What a read of character k of a word finds; past its end it finds no character of a name. */
  predicate CharIs(w: string, k: nat, c: char) {
    k < |w| && w[k] == c
  }

  lemma Words()
    ensures |KEYWORDS| == COUNT
    ensures Word(0) == "and" && Word(1) == "begin" && Word(2) == "case" && Word(3) == "cond" && Word(4) == "define"
    ensures Word(5) == "delay" && Word(6) == "do" && Word(7) == "else" && Word(8) == "if" && Word(9) == "lambda"
    ensures Word(10) == "let" && Word(11) == "letrec" && Word(12) == "let*" && Word(13) == "or"
    ensures Word(14) == "quasiquote" && Word(15) == "quote" && Word(16) == "set!"
  {
  }

  // ---- The order of the table ----------------------------------------------------------------

  /** Words that agree on their first n characters and on no later one. */
  predicate AgreeOn(a: string, b: string, n: nat) {
    n <= |a| && n <= |b| && a[..n] == b[..n] && forall i | n <= i < |a| && i < |b| :: a[i] != b[i]
  }

  lemma AgreeBefore(a: string, b: string, n: nat, k: nat, c: char)
    requires AgreeOn(a, b, n) && CharIs(a, k, c) && CharIs(b, k, c)
    ensures a[..k] == b[..k]
  {
    assert k < n;
    assert a[..k] == a[..n][..k] && b[..k] == b[..n][..k];
  }

  /** The characters two neighbours have in common. */
  function Common(i: nat): nat {
    if i == 10 || i == 11 then 3
    else if i == 4 || i == 14 then 2
    else if i == 2 || i == 5 || i == 9 then 1
    else 0
  }

  lemma NeighboursLow(i: nat)
    requires i < 8
    ensures AgreeOn(Word(i), Word(i + 1), Common(i))
  {
    hide Word;
    Words();
  }

  lemma NeighboursHigh(i: nat)
    requires 8 <= i < 16
    ensures AgreeOn(Word(i), Word(i + 1), Common(i))
  {
    hide Word;
    Words();
  }

  /** Neighbours with one character in common have all before it in common. */
  lemma Neighbours(i: nat, k: nat, c: char)
    requires i + 1 < COUNT && CharIs(Word(i), k, c) && CharIs(Word(i + 1), k, c)
    ensures Word(i)[..k] == Word(i + 1)[..k]
  {
    hide Word, AgreeOn;
    if i < 8 {
      NeighboursLow(i);
    } else {
      NeighboursHigh(i);
    }
    AgreeBefore(Word(i), Word(i + 1), Common(i), k, c);
  }

  lemma PrefixOne(p: string, w: string, k: nat)
    ensures p <= w && k < |p| ==> k < |w| && w[k] == p[k]
  {
  }

  /** Words that begin alike stand together. */
  lemma Together(p: string, a: nat, b: nat, c: nat)
    requires p != "" && a < b < c < COUNT && p <= Word(a) && p <= Word(c)
    ensures p <= Word(b)
  {
    hide Word;
    Words();
    PrefixOne(p, Word(a), 0);
    PrefixOne(p, Word(c), 0);
    assert (a == 4 && c == 6) || (a == 9 && c >= 11) || (a == 10 && c == 12);
    PrefixOne(p, Word(a), 1);
    PrefixOne(p, Word(c), 1);
    PrefixOne(p, Word(a), 3);
  }

  // ---- The search ----------------------------------------------------------------------------

  /** The words that begin with the first k characters of the key are those from i on and before j. */
  ghost predicate Bounds(key: string, k: nat, i: nat, j: nat) {
    k <= |key| && i < j <= COUNT && forall a: nat | a < COUNT :: key[..k] <= Word(a) <==> i <= a < j
  }

  lemma Extended(key: string, k: nat, w: string)
    requires k < |key|
    ensures key[..k + 1] <= w <==> key[..k] <= w && CharIs(w, k, key[k])
  {
    assert key[..k + 1] == key[..k] + [key[k]];
    if key[..k] <= w && CharIs(w, k, key[k]) {
      assert w[..k + 1] == w[..k] + [w[k]];
    }
    if key[..k + 1] <= w {
      assert w[..k + 1] == key[..k + 1];
      assert key[..k] == w[..k];
    }
  }

  /** The bounds for one more character: from the first word that has it to the first that has it not. */
  lemma Closer(key: string, k: nat, i: nat, j: nat, i': nat, j': nat)
    requires Bounds(key, k, i, j) && k < |key| && i <= i' < j && i' < j' <= COUNT
    requires (forall a: nat | i <= a < i' :: !CharIs(Word(a), k, key[k])) && CharIs(Word(i'), k, key[k])
    requires forall a: nat | i' < a < j' :: CharIs(Word(a), k, key[k])
    requires j' < COUNT ==> !CharIs(Word(j'), k, key[k])
    ensures Bounds(key, k + 1, i', j')
  {
    hide Word, CharIs;
    var p := key[..k + 1];
    forall a: nat | a < COUNT
      ensures p <= Word(a) <==> i' <= a < j'
    {
      Extended(key, k, Word(a));
      if a > j' && p <= Word(a) {
        Extended(key, k, Word(i'));
        Extended(key, k, Word(j'));
        Together(p, i', j', a);
      }
      if i' <= a < j' {
        Begins(key, k, i', a);
      }
    }
  }

  lemma {:induction false} Begins(key: string, k: nat, i: nat, a: nat)
    requires k < |key| && i <= a < COUNT && key[..k] <= Word(i)
    requires forall b: nat | i <= b <= a :: CharIs(Word(b), k, key[k])
    ensures key[..k + 1] <= Word(a)
    decreases a
  {
    hide Word;
    if a > i {
      Begins(key, k, i, a - 1);
      Neighbours(a - 1, k, key[k]);
      assert key[..k] == key[..k + 1][..k] == Word(a - 1)[..k];
    }
    Extended(key, k, Word(a));
  }

  /** The first word the key begins selects the form. */
  lemma FindsFirst(key: string, i: nat)
    requires i < |KEYWORDS| && key <= KEYWORDS[i].0 && forall a | 0 <= a < i :: !(key <= KEYWORDS[a].0)
    ensures FindKeyword(key) == KEYWORDS[i].1
  {
    hide KEYWORDS, PrefixIndex;
    assert PrefixIndex(key, 0) == i;
  }

  lemma FindsNone(key: string)
    requires forall a | 0 <= a < |KEYWORDS| :: !(key <= KEYWORDS[a].0)
    ensures FindKeyword(key) == NotKeyword
  {
    hide KEYWORDS, PrefixIndex;
    assert PrefixIndex(key, 0) == |KEYWORDS|;
  }

  lemma Found(key: string, i: nat, j: nat)
    requires Bounds(key, |key|, i, j)
    ensures i < |KEYWORDS| && FindKeyword(key) == KEYWORDS[i].1
  {
    hide KEYWORDS, FindKeyword;
    TableSize();
    assert key[..|key|] == key;
    forall a | 0 <= a <= i
      ensures key <= KEYWORDS[a].0 <==> a == i
    {
      assert Word(a) == KEYWORDS[a].0;
    }
    FindsFirst(key, i);
  }

  lemma NotFound(key: string, k: nat, i: nat, j: nat)
    requires Bounds(key, k, i, j) && k < |key| && forall a: nat | i <= a < j :: !CharIs(Word(a), k, key[k])
    ensures FindKeyword(key) == NotKeyword
  {
    hide KEYWORDS, FindKeyword;
    TableSize();
    forall a | 0 <= a < |KEYWORDS|
      ensures !(key <= KEYWORDS[a].0)
    {
      assert Word(a) == KEYWORDS[a].0;
      PrefixOne(key, Word(a), k);
      PrefixPart(key, Word(a), k);
    }
    FindsNone(key);
  }

  lemma PrefixPart(p: string, w: string, k: nat)
    requires k <= |p|
    ensures p <= w ==> p[..k] <= w
  {
  }

  lemma TableSize()
    ensures |KEYWORDS| == COUNT
  {
  }

  lemma AllBegin(key: string)
    ensures Bounds(key, 0, 0, COUNT)
  {
  }

  /** _find_keyword. */
  method SearchKeyword(key: string) returns (keyword: Keyword)
    ensures keyword == FindKeyword(key)
  {
    hide Word, KEYWORDS, Bounds, FindKeyword, CharIs;
    TableSize();
    AllBegin(key);
    var i, j, k := 0, |KEYWORDS|, 0;
    while k < |key|
      invariant k <= |key| && i < j <= COUNT && Bounds(key, k, i, j)
    {
      ghost var i0 := i;
      while i < j && !CharIs(Word(i), k, key[k])
        invariant i0 <= i <= j && forall a: nat | i0 <= a < i :: !CharIs(Word(a), k, key[k])
      {
        i := i + 1;
      }
      if i == j {
        NotFound(key, k, i0, j);
        return NotKeyword;
      }
      ghost var j0 := j;
      j := i + 1;
      while j < |KEYWORDS| && CharIs(Word(j), k, key[k])
        invariant i < j <= COUNT && forall a: nat | i < a < j :: CharIs(Word(a), k, key[k])
      {
        j := j + 1;
      }
      Closer(key, k, i0, j0, i, j);
      k := k + 1;
    }
    Found(key, i, j);
    keyword := KEYWORDS[i].1;
  }
}
