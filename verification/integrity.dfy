/**
 * The converted sentence is a well-formed graph for the renderer: every edge
 * end and every parent reference names a node of the same element list,
 * provided every head refers to a word of the sentence.
 */
module GraphIntegrity {
  import opened Wrappers
  import opened IdCodec
  import opened Conllu
  import opened Graph
  import opened TokenElements
  import opened GraphBuilder
  import opened GraphBuilderGrouping

  /** The parent that the token at position `n` gives its words. */
  function ParentOf(t: Token, n: nat): (p: Option<string>)
    ensures p.Some? <==> t.Multiword?
  {
    if t.Plain? then None else Some(ElementId(GroupPrefix, n))
  }

  /** `out` holds a node with this id. */
  predicate HasNode(out: seq<Element>, id: string) {
    exists e :: e in out && e.IsNode() && e.Id() == id
  }

  /** Every head names a word of the sentence (the parser does not check this). */
  predicate HeadsResolve(sent: seq<Token>) {
    forall w :: w in AllWords(sent) && HasHead(w) ==> w.head.value in IdSet(AllWords(sent))
  }

  lemma {:induction false} WordPosition(sent: seq<Token>, w: Word) returns (i: nat)
    requires w in AllWords(sent)
    ensures i < |sent| && w in WordsOf(sent[i])
  {
    if w in WordsOf(sent[0]) {
      i := 0;
    } else {
      var k := WordPosition(sent[1..], w);
      i := k + 1;
      assert sent[1..][k] == sent[i];
    }
  }

  lemma {:induction false} WordInAll(sent: seq<Token>, i: nat, w: Word)
    requires i < |sent| && w in WordsOf(sent[i])
    ensures w in AllWords(sent)
  {
    if i > 0 {
      assert sent[1..][i - 1] == sent[i];
      WordInAll(sent[1..], i - 1, w);
    }
  }

  /** Each element of a word of the token at position `i` is in the output. */
  lemma WordElementInBuild(sent: seq<Token>, leftToRight: bool, i: nat, w: Word, e: Element)
    requires NoEmptyMultiword(sent) && i < |sent| && w in WordsOf(sent[i])
    requires e in CreateToken(w, ParentOf(sent[i], i), leftToRight)
    ensures e in Build(sent, 0, leftToRight)
  {
    match sent[i]
    case Plain(_) =>
      TokenBlockInBuild(sent, i, leftToRight, e);
    case Multiword(form, ws) =>
      var spId := ElementId(GroupPrefix, i);
      var j :| 0 <= j < |ws| && ws[j] == w;
      CreateTokenInMembers(ws, Some(spId), j, leftToRight, e);
      ConcatMember([Element(GroupNode(spId, GroupLabel(form, ws)), Unclassed)], MemberElements(ws, Some(spId), leftToRight), e);
      TokenBlockInBuild(sent, i, leftToRight, e);
  }

  /** Every element of the output other than a group node belongs to one word of one token. */
  lemma BlockWord(t: Token, n: nat, leftToRight: bool, e: Element) returns (w: Word)
    requires e in TokenBlock(t, n, leftToRight) && !e.data.GroupNode?
    ensures w in WordsOf(t) && e in CreateToken(w, ParentOf(t, n), leftToRight)
  {
    match t
    case Plain(v) =>
      w := v;
    case Multiword(form, ws) =>
      var spId := ElementId(GroupPrefix, n);
      var blocks := WordBlocks(ws, Some(spId), leftToRight);
      assert e in Flatten(blocks);
      var j := FlattenFind(blocks, e);
      WordBlocksIndex(ws, Some(spId), leftToRight, j);
      w := ws[j];
  }

  lemma BlockWordAt(sent: seq<Token>, i: nat, leftToRight: bool, e: Element) returns (w: Word)
    requires i < |sent| && e in TokenBlocks(sent, 0, leftToRight)[i] && !e.data.GroupNode?
    ensures w in WordsOf(sent[i]) && e in CreateToken(w, ParentOf(sent[i], i), leftToRight)
  {
    var blk := TokenBlocks(sent, 0, leftToRight)[i];
    TokenBlocksIndex(sent, 0, leftToRight, i);
    assert e in TokenBlock(sent[i], i, leftToRight);
    w := BlockWord(sent[i], i, leftToRight, e);
  }

  /** Which token an element of the output came from. */
  lemma FindBlock(sent: seq<Token>, leftToRight: bool, e: Element) returns (i: nat)
    requires NoEmptyMultiword(sent) && e in Build(sent, 0, leftToRight)
    ensures i < |sent| && e in TokenBlocks(sent, 0, leftToRight)[i]
  {
    i := FlattenFind(TokenBlocks(sent, 0, leftToRight), e);
  }

  lemma FindWord(sent: seq<Token>, leftToRight: bool, e: Element) returns (i: nat, w: Word)
    requires NoEmptyMultiword(sent) && e in Build(sent, 0, leftToRight) && !e.data.GroupNode?
    ensures i < |sent| && w in WordsOf(sent[i]) && e in CreateToken(w, ParentOf(sent[i], i), leftToRight)
  {
    i := FindBlock(sent, leftToRight, e);
    w := BlockWordAt(sent, i, leftToRight, e);
  }

  /** Every word of the sentence has its word-form node and its POS node in the output. */
  lemma WordNodesPresent(sent: seq<Token>, leftToRight: bool, w: Word)
    requires NoEmptyMultiword(sent) && w in AllWords(sent)
    ensures HasNode(Build(sent, 0, leftToRight), ElementId(WordFormPrefix, w.id))
    ensures HasNode(Build(sent, 0, leftToRight), ElementId(PosPrefix, w.id))
  {
    var i := WordPosition(sent, w);
    var r := CreateToken(w, ParentOf(sent[i], i), leftToRight);
    NodesOfWord(w, ParentOf(sent[i], i), leftToRight);
    assert r[0] in r && r[1] in r;
    WordElementInBuild(sent, leftToRight, i, w, r[0]);
    WordElementInBuild(sent, leftToRight, i, w, r[1]);
  }

  /** The group node of the multiword token at position `i` is in the output. */
  lemma GroupNodePresent(sent: seq<Token>, leftToRight: bool, i: nat)
    requires NoEmptyMultiword(sent) && i < |sent| && sent[i].Multiword?
    ensures HasNode(Build(sent, 0, leftToRight), ElementId(GroupPrefix, i))
  {
    var block := TokenBlock(sent[i], i, leftToRight);
    assert block[0] in block && block[0].IsNode();
    TokenBlockInBuild(sent, i, leftToRight, block[0]);
  }

  /**
   * When every head names a word of the sentence, both ends of every edge
   * are nodes of the output.
   */
  lemma EdgesResolve(sent: seq<Token>, leftToRight: bool, e: Element)
    requires NoEmptyMultiword(sent) && HeadsResolve(sent)
    requires e in ConlluToCy(sent, leftToRight).value && (e.data.DepEdge? || e.data.PosEdge?)
    ensures HasNode(ConlluToCy(sent, leftToRight).value, e.data.source)
    ensures HasNode(ConlluToCy(sent, leftToRight).value, e.data.target)
  {
    var i, w := FindWord(sent, leftToRight, e);
    EdgeOfWord(w, ParentOf(sent[i], i), leftToRight, e);
    WordInAll(sent, i, w);
    WordNodesPresent(sent, leftToRight, w);
    if e.data.source != ElementId(WordFormPrefix, w.id) {
      var h := w.head.value;
      assert h in IdSet(AllWords(sent));
      var v :| v in AllWords(sent) && v.id == h;
      WordNodesPresent(sent, leftToRight, v);
    }
  }

  /** The parent of every word-form node is a node of the output. */
  lemma ParentsResolve(sent: seq<Token>, leftToRight: bool, e: Element)
    requires NoEmptyMultiword(sent)
    requires e in ConlluToCy(sent, leftToRight).value && e.data.WordNode? && e.data.parent.Some?
    ensures HasNode(ConlluToCy(sent, leftToRight).value, e.data.parent.value)
  {
    var i, w := FindWord(sent, leftToRight, e);
    WordNodeOfWord(w, ParentOf(sent[i], i), leftToRight, e);
    GroupNodePresent(sent, leftToRight, i);
  }
}
