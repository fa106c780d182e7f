/**
 * The elements of one word (`createToken`, `makePOS`, `makeDependencies`):
 * its word-form node, its POS node, the edge between them, and, when the
 * word has a head, its dependency edge.
 */
module TokenElements {
  import opened Wrappers
  import opened Decimal
  import opened IdCodec
  import opened Subscript
  import opened Conllu
  import opened Graph
  import Geometry

  /** The prefixes of a word's elements, in the order they are emitted. */
  const WordPrefixOrder: seq<string> := [WordFormPrefix, PosPrefix, PosEdgePrefix, DepEdgePrefix]

  /** The form shown on the word-form node: a multiword member shows its lemma; an absent form becomes a space. */
  function DisplayForm(w: Word, grouped: bool): (r: string)
    ensures var field := if grouped then w.lemmaForm else w.form;
      && (field.Some? ==> r == field.value)
      && (field.None? ==> r == " ")
    ensures r == "" ==> (if grouped then w.lemmaForm else w.form) == Some("")
  {
    var f := if grouped then w.lemmaForm else w.form;
    f.GetOr(" ")
  }

  /** The POS tag shown: the universal tag, else the language-specific one, else empty. */
  function PosLabel(w: Word): (r: string)
    ensures w.upos.Some? ==> r == w.upos.value
    ensures w.upos.None? ==> r == w.xpos.GetOr("")
  {
    if w.upos.Some? then w.upos.value
    else if w.xpos.Some? then w.xpos.value
    else ""
  }

  /** `makePOS`: the POS node and the edge from the word-form node to it. */
  function MakePos(w: Word, nodeId: string): (r: seq<Element>)
    ensures |r| == 2 && r[0].data.PosNode? && r[1].data.PosEdge?
    ensures r[1].data.source == WordFormPrefix + nodeId && r[1].data.target == r[0].Id()
  {
    var pos := PosLabel(w);
    var posNode := PosNode(PosPrefix + nodeId, pos, |pos| + 1);
    [Element(posNode, Pos),
     Element(PosEdge(PosEdgePrefix + nodeId, WordFormPrefix + nodeId, posNode.id), Pos)]
  }

  /** `makeDependencies`: the arc from the head's word-form node, if there is a head. */
  function MakeDependencies(w: Word, nodeId: string, leftToRight: bool): (r: seq<Element>)
    requires AllDigits(nodeId)
    ensures |r| == 1 <==> HasHead(w)
    ensures |r| <= 1
  {
    if HasHead(w) then
      var head := w.head.value;
      [Element(DepEdge(DepEdgePrefix + nodeId, WordFormPrefix + StrWithZero(head),
                       WordFormPrefix + nodeId, w.deprel,
                       Geometry.Curvature(head, Parse(nodeId), leftToRight)),
               Dependency)]
    else []
  }

  /**
   * `createToken` for word `w`, grouped under `parent` when it is a multiword
   * member: three elements, four when the word has a head.
   */
  function CreateToken(w: Word, parent: Option<string>, leftToRight: bool): (r: seq<Element>)
    ensures |r| == if HasHead(w) then 4 else 3
  {
    var nodeId := StrWithZero(w.id);
    var form := DisplayForm(w, parent.Some?);
    var wordNode := WordNode(WordFormPrefix + nodeId, form + ToSubscript(Show(Parse(nodeId))), form, parent, |form| + 1);
    [Element(wordNode, Wf)] + MakePos(w, nodeId) + MakeDependencies(w, nodeId, leftToRight)
  }

  /**
   * What each element of a word holds: the word-form node shows the display
   * form followed by the subscripted unpadded id, the POS node the resolved
   * tag, the POS edge joins the two, and the dependency edge runs from the
   * head's word-form node to this one with the curvature of the arc.
   */
  lemma CreateTokenContents(w: Word, parent: Option<string>, leftToRight: bool)
    ensures var r := CreateToken(w, parent, leftToRight); var form := DisplayForm(w, parent.Some?);
      && r[0] == Element(WordNode(ElementId(WordFormPrefix, w.id), form + ToSubscript(Show(w.id)), form, parent, |form| + 1), Wf)
      && r[1] == Element(PosNode(ElementId(PosPrefix, w.id), PosLabel(w), |PosLabel(w)| + 1), Pos)
      && r[2] == Element(PosEdge(ElementId(PosEdgePrefix, w.id), ElementId(WordFormPrefix, w.id), ElementId(PosPrefix, w.id)), Pos)
      && (HasHead(w) ==> r[3] == Element(DepEdge(ElementId(DepEdgePrefix, w.id), ElementId(WordFormPrefix, w.head.value),
                                                ElementId(WordFormPrefix, w.id), w.deprel,
                                                Geometry.Curvature(w.head.value, w.id, leftToRight)), Dependency))
  {
    var nodeId := StrWithZero(w.id);
    ParseStrWithZero(w.id);
    assert WordFormPrefix + nodeId == ElementId(WordFormPrefix, w.id);
    assert Show(Parse(nodeId)) == Show(w.id);
  }

  /**
   * The POS node shows the universal tag when there is one, otherwise the
   * language-specific tag, otherwise nothing.
   */
  lemma CreateTokenPosCaption(w: Word, parent: Option<string>, leftToRight: bool)
    ensures var r := CreateToken(w, parent, leftToRight);
      && r[1].data.PosNode?
      && (w.upos.Some? ==> r[1].data.caption == w.upos.value)
      && (w.upos.None? ==> r[1].data.caption == w.xpos.GetOr(""))
  {
    CreateTokenContents(w, parent, leftToRight);
  }

  /** The element ids of a word: one prefix each, in emission order, on the padded word id. */
  lemma CreateTokenIdOrder(w: Word, parent: Option<string>, leftToRight: bool)
    ensures var r := CreateToken(w, parent, leftToRight);
      forall k :: 0 <= k < |r| ==> r[k].Id() == ElementId(WordPrefixOrder[k], w.id)
  {
    CreateTokenContents(w, parent, leftToRight);
  }

  /** The first two elements of a word are its word-form node and its POS node. */
  lemma NodesOfWord(w: Word, parent: Option<string>, leftToRight: bool)
    ensures var r := CreateToken(w, parent, leftToRight);
      && r[0].IsNode() && r[0].Id() == ElementId(WordFormPrefix, w.id)
      && r[1].IsNode() && r[1].Id() == ElementId(PosPrefix, w.id)
  {
    CreateTokenContents(w, parent, leftToRight);
  }

  /**
   * An edge among a word's elements is either its POS edge, from its
   * word-form node to its POS node, or its dependency edge, from the head's
   * word-form node to its own.
   */
  lemma EdgeOfWord(w: Word, parent: Option<string>, leftToRight: bool, e: Element)
    requires e in CreateToken(w, parent, leftToRight) && (e.data.DepEdge? || e.data.PosEdge?)
    ensures || (e.data.source == ElementId(WordFormPrefix, w.id) && e.data.target == ElementId(PosPrefix, w.id))
            || (HasHead(w) && e.data.source == ElementId(WordFormPrefix, w.head.value)
                && e.data.target == ElementId(WordFormPrefix, w.id))
  {
    var r := CreateToken(w, parent, leftToRight);
    CreateTokenContents(w, parent, leftToRight);
    var k :| 0 <= k < |r| && r[k] == e;
  }

  /** The only word-form node among a word's elements carries the given parent. */
  lemma WordNodeOfWord(w: Word, parent: Option<string>, leftToRight: bool, e: Element)
    requires e in CreateToken(w, parent, leftToRight) && e.data.WordNode?
    ensures e.data.parent == parent && e.Id() == ElementId(WordFormPrefix, w.id)
  {
    var r := CreateToken(w, parent, leftToRight);
    CreateTokenContents(w, parent, leftToRight);
    var k :| 0 <= k < |r| && r[k] == e;
  }
}
