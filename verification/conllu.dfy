/**
 * The parsed sentence as the CoNLL-U parser hands it over: top-level tokens,
 * each either one syntactic word or a multiword token (supertoken) that owns
 * the words it splits into.
 */
module Conllu {
  import opened Wrappers

  /** One syntactic word. `head` 0 or absent marks the root. */
  datatype Word = Word(
    id: nat,
    form: Option<string>,
    lemmaForm: Option<string>,
    head: Option<nat>,
    deprel: string,
    upos: Option<string>,
    xpos: Option<string>)

  datatype Token =
    | Plain(word: Word)
    | Multiword(form: string, members: seq<Word>)

  /** The words a top-level token contributes. */
  function WordsOf(t: Token): seq<Word> {
    match t
    case Plain(w) => [w]
    case Multiword(_, ws) => ws
  }

  /** Every word of the sentence, multiword members in place of their token. */
  function AllWords(sent: seq<Token>): seq<Word> {
    if |sent| == 0 then [] else WordsOf(sent[0]) + AllWords(sent[1..])
  }

  /** Whether the word carries an incoming dependency (`token.head && token.head != 0`). */
  predicate HasHead(w: Word) {
    w.head.Some? && w.head.value != 0
  }

  function CountHeaded(ws: seq<Word>): nat {
    if |ws| == 0 then 0 else (if HasHead(ws[0]) then 1 else 0) + CountHeaded(ws[1..])
  }

  function CountMultiword(sent: seq<Token>): nat {
    if |sent| == 0 then 0 else (if sent[0].Multiword? then 1 else 0) + CountMultiword(sent[1..])
  }

  lemma {:induction false} CountHeadedConcat(a: seq<Word>, b: seq<Word>)
    ensures CountHeaded(a + b) == CountHeaded(a) + CountHeaded(b)
  {
    if |a| > 0 {
      assert (a + b)[1..] == a[1..] + b;
      CountHeadedConcat(a[1..], b);
    } else {
      assert a + b == b;
    }
  }

  function IdSet(ws: seq<Word>): set<nat> {
    set w | w in ws :: w.id
  }

  /** No two words share an id. */
  predicate DistinctIds(ws: seq<Word>) {
    forall i, j :: 0 <= i < j < |ws| ==> ws[i].id != ws[j].id
  }

  lemma DistinctIdsSplit(a: seq<Word>, b: seq<Word>)
    requires DistinctIds(a + b)
    ensures DistinctIds(a) && DistinctIds(b)
    ensures IdSet(a) !! IdSet(b)
  {
    assert DistinctIds(a) by {
      forall i, j | 0 <= i < j < |a| ensures a[i].id != a[j].id {
        assert (a + b)[i] == a[i] && (a + b)[j] == a[j];
      }
    }
    assert DistinctIds(b) by {
      forall i, j | 0 <= i < j < |b| ensures b[i].id != b[j].id {
        assert (a + b)[|a| + i] == b[i] && (a + b)[|a| + j] == b[j];
      }
    }
    forall i, j | 0 <= i < |a| && 0 <= j < |b| ensures a[i].id != b[j].id {
      assert (a + b)[i] == a[i] && (a + b)[|a| + j] == b[j];
    }
  }

  /** Every multiword token has at least one member. */
  predicate NoEmptyMultiword(sent: seq<Token>) {
    forall i :: 0 <= i < |sent| && sent[i].Multiword? ==> |sent[i].members| > 0
  }
}
