# Dependency-tree visualiser core, in Dafny

This project models the pure core of the UD Annotatrix stand-alone
visualiser (`standalone/lib/visualiser.js`). That core turns a parsed CoNLL-U
sentence into the element list handed to the graph renderer. Each word
gives:

- a word-form node `nf<id>`;
- a POS node `np<id>`;
- a POS edge `ep<id>`;
- a dependency arc `ed<id>` with four curvature control points, when the word has a head.

Each multiword token gives a group node `ns<position>`, and its member words
are parented to that node. Ids are padded to two digits (`strWithZero`).
Captions carry subscripted numbers (`toSubscript`).

The core also chooses the grid layout and one of three node comparators
(`formLayout`, `simpleIdSorting`, `rtlSorting`, `vertAlSort`), and sizes
the drawing box (`changeBoxSize`).

The two global flags `VERT_ALIGNMENT` and `LEFT_TO_RIGHT` become the
parameters `vertical` and `leftToRight`. The parser's output is modelled as
`Conllu.Token`. Either it is a `Plain` word, or it is a `Multiword` token
with its surface form and member words.

Modules, one per file except where noted:

| file | module | what it holds |
|---|---|---|
| wrappers.dfy | Wrappers | `Option` |
| decimal.dfy | Decimal | `String(n)` for naturals, and unary `+` on a digit string |
| lexorder.dfy | LexOrder | JavaScript `<` on strings, with its order laws |
| idcodec.dfy | IdCodec | `strWithZero`, the element id prefixes, and `slice(2)` read-back |
| subscript.dfy | Subscript | `LOW_DIGITS`, `toSubscript` and its inverse |
| conllu.dfy | Conllu | the parsed sentence |
| graph.dfy | Graph | the element records, plus generic list helpers |
| geometry.dfy | Geometry | the curvature of a dependency arc |
| tokenelements.dfy | TokenElements | `createToken`, `makePOS`, `makeDependencies` |
| graphbuilder.dfy | GraphBuilder, GraphBuilderGrouping | `conllu2cy`, `findSupTokId`, and counts, ids and grouping of the output |
| integrity.dfy | GraphIntegrity | every edge end and parent names a node of the output |
| layout.dfy | Layout | the comparators, `formLayout` and `changeBoxSize` |

Behaviour of the code worth noting:

- The POS edge is tagged with class `pos` (`Graph.Class.Pos`), as at line 178.
- The `length` hint of a word-form node counts the characters of the displayed form, not of the full caption (line 120).
- For a multiword token with no members, `subtokens[0]` in `findSupTokId` is `undefined`, and reading its `.id` throws. `ConlluToCy` returns `None` exactly in that case.

## Model

| member | source | states |
|---|---|---|
| Decimal.Show | standalone/lib/visualiser.js:232 | `String(n)` is a non-empty digit string. It is one character exactly when n < 10, and it starts with `0` only for 0 |
| Decimal.ParseShow | standalone/lib/visualiser.js:122 | reading the decimal text of n back with unary `+` gives n |
| Decimal.ParseDigits | standalone/lib/visualiser.js:122 | unary `+` on a digit string gives 0 exactly for a string of zeros, `""` included, and the last character is the units digit |
| Decimal.ShowInjective | standalone/lib/visualiser.js:94 | distinct ids have distinct decimal texts, and the converse |
| Decimal.ParseLeadingZero | standalone/lib/visualiser.js:232 | a leading `0` does not change the value unary `+` reads |
| LexOrder.Irreflexive | standalone/lib/visualiser.js:190-192 | no id is `<` itself |
| LexOrder.Less | standalone/lib/visualiser.js:190 | string `<` never holds between equal strings, and a proper prefix sorts first |
| LexOrder.Asymmetric | standalone/lib/visualiser.js:190-192 | `a < b` excludes `b < a` |
| LexOrder.Connected | standalone/lib/visualiser.js:190-195 | two different strings are ordered one way or the other, so `simpleIdSorting` returns 0 only for equal ids |
| LexOrder.Transitive | standalone/lib/visualiser.js:190-192 | string `<` is transitive |
| LexOrder.CommonPrefix | standalone/lib/visualiser.js:190 | a shared prefix such as `nf` does not change the order |
| LexOrder.LessTwo | standalone/lib/visualiser.js:190 | two-character strings compare by first, then second character |
| IdCodec.StrWithZero | standalone/lib/visualiser.js:231-233 | the padded id is all digits; one-digit ids become two characters and longer ids keep the length of their decimal text, so with ParseStrWithZero an id of two or more digits is left as it is |
| IdCodec.ParseStrWithZero | standalone/lib/visualiser.js:116-122 | `+nodeId` on the padded id gives the token id back |
| IdCodec.StrWithZeroInjective | standalone/lib/visualiser.js:231-233 | padding maps distinct ids to distinct strings, and the converse |
| IdCodec.StrWithZeroDigits | standalone/lib/visualiser.js:231-233 | below 100 the padded id is the tens digit, then the units digit |
| IdCodec.StrWithZeroOrder | standalone/lib/visualiser.js:231-233 | for ids below 100, string order of padded ids is numeric order, in both directions |
| IdCodec.DecodeElementId | standalone/lib/visualiser.js:215-216 | `slice(2)` of an element id is all digits, and reading it back gives the token id; the first two characters give the prefix |
| IdCodec.ElementIdInjective | standalone/lib/visualiser.js:121 | two element ids are equal exactly when prefix and token id both are |
| IdCodec.SplitElementId | standalone/lib/visualiser.js:121 | an element id is its prefix followed by the padded id |
| IdCodec.PadSetMember | standalone/lib/visualiser.js:231-233 | a padded id is among the padded ids of a set exactly when the id is in the set |
| IdCodec.PadSetDisjoint | standalone/lib/visualiser.js:231-233 | disjoint id sets have disjoint padded ids |
| Subscript.LowerIsTable | standalone/lib/visualiser.js:10-11 | the per-character map is exactly a lookup in `LOW_DIGITS`, with non-keys unchanged |
| Subscript.Lower | standalone/lib/visualiser.js:101 | a digit d becomes code point U+2080+d, and a character is kept exactly when it is not a digit, `-`, `(` or `)` |
| Subscript.ToSubscript | standalone/lib/visualiser.js:98-105 | the result has the input's length, and each character is the table image of the input character, or that character |
| Subscript.LoweredIsNotKey | standalone/lib/visualiser.js:10-11 | every key changes and lands on a subscript character, and no subscript character is a key |
| Subscript.LowerIdempotent | standalone/lib/visualiser.js:101 | mapping a character twice equals mapping it once |
| Subscript.ToSubscriptIdempotent | standalone/lib/visualiser.js:98-105 | subscripting twice equals subscripting once |
| Subscript.ToSubscriptConcat | standalone/lib/visualiser.js:98-105 | subscripting distributes over concatenation |
| Subscript.FromSubscript | standalone/lib/visualiser.js:10-11 | the inverse map keeps length and works character by character |
| Subscript.RaiseLower | standalone/lib/visualiser.js:10-11 | the inverse undoes the table on any character that is not a subscript |
| Subscript.SubscriptRoundTrip | standalone/lib/visualiser.js:98-105 | on text with no subscript characters, `toSubscript` loses nothing |
| Conllu.CountHeadedConcat | standalone/lib/visualiser.js:135 | the number of words with a head adds up over concatenation |
| Conllu.DistinctIdsSplit | standalone/lib/visualiser.js:116 | distinct ids in a joined list mean distinct ids in each part, and no id shared between parts |
| Geometry.Curvature | standalone/lib/visualiser.js:142-147 | four equal control points. Their sign is positive exactly when the head lies on the reading-direction side, and zero exactly when head = dependent. Their magnitude is 55 for neighbours, else 55 · 0.7 · distance |
| Geometry.Coefficient | standalone/lib/visualiser.js:144-146 | `coef` is positive exactly when the head lies after the word in reading direction, zero exactly for a self-loop, and its magnitude is the word distance, damped by 0.7 unless the words are neighbours |
| Geometry.DirectionFlip | standalone/lib/visualiser.js:145 | right-to-left negates every control point of the left-to-right arc, and nothing else |
| Geometry.AdjacentArc | standalone/lib/visualiser.js:144-147 | an arc between neighbours is exactly ±55 on all four points, with sign set by side and direction |
| Geometry.LongArc | standalone/lib/visualiser.js:146-147 | a longer arc bends 38.5 per word of signed distance |
| TokenElements.MakePos | standalone/lib/visualiser.js:154-181 | a POS node, then an edge from the word-form node to that POS node |
| TokenElements.PosLabel | standalone/lib/visualiser.js:157-162 | the universal tag when present, otherwise the language-specific tag, otherwise the empty string |
| TokenElements.CreateTokenPosCaption | standalone/lib/visualiser.js:157-168 | the POS node of a word shows its universal tag, or else its language-specific tag, or else nothing |
| TokenElements.DisplayForm | standalone/lib/visualiser.js:113-114 | a multiword member shows its lemma, any other word its form, and a missing field shows a space; the text is empty only when the field itself is the empty string |
| TokenElements.MakeDependencies | standalone/lib/visualiser.js:132-151 | one dependency edge exactly when the word has a nonzero head, otherwise none |
| TokenElements.CreateToken | standalone/lib/visualiser.js:108-129 | three elements, four exactly when the word has a head |
| TokenElements.CreateTokenContents | standalone/lib/visualiser.js:113-178 | the exact four records. The word-form node has its display form plus the subscripted unpadded id, and length form + 1. The POS node has upos, else xpos, else "", with length + 1. The POS edge runs from `nf` to `np`. The arc runs from the head's `nf` to this word's `nf`, labelled with deprel and with the arc's curvature |
| TokenElements.CreateTokenIdOrder | standalone/lib/visualiser.js:116-127 | the k-th element's id is the k-th of `nf`, `np`, `ep`, `ed` on the padded word id |
| TokenElements.NodesOfWord | standalone/lib/visualiser.js:121-126 | the first two elements are the nodes `nf<id>` and `np<id>` |
| TokenElements.EdgeOfWord | standalone/lib/visualiser.js:137-140 | an edge among a word's elements joins its `nf` and `np` nodes, or runs from the head's `nf` to its own |
| TokenElements.WordNodeOfWord | standalone/lib/visualiser.js:119-121 | the word-form node carries the given parent and the id `nf<id>` |
| GraphBuilder.FindSupTokId | standalone/lib/visualiser.js:93-95 | fails exactly on an empty member list |
| GraphBuilder.SupTokIdReadBack | standalone/lib/visualiser.js:93-95 | the range text is digits, a `-`, then digits, and the two numbers read back as the first and last member ids |
| GraphBuilder.GroupLabelExample | standalone/lib/visualiser.js:78-80 | "didn't" over words 3 to 5 is captioned "didn't ₍₃₋₅₎" |
| GraphBuilder.GroupLabel | standalone/lib/visualiser.js:78-80 | the group label is the token's form, then a space, then only subscript characters; it is three characters longer than the form and the id range together |
| GraphBuilder.GroupLabelReadBack | standalone/lib/visualiser.js:79 | reading the subscript part of the label back through the inverse table gives exactly " (first-last)" for the member ids |
| GraphBuilder.ConlluToCy | standalone/lib/visualiser.js:74-90 | conversion fails exactly when some multiword token has no members |
| GraphBuilder.TokenBlockShape | standalone/lib/visualiser.js:76-86 | a token's elements open with a group node, the one with id `ns<n>`, exactly when the token is a multiword token |
| GraphBuilder.BuildCons | standalone/lib/visualiser.js:74-90 | the output is the first token's elements followed by the output for the remaining tokens, whose positions count on from the next one |
| GraphBuilder.MemberElementsCount | standalone/lib/visualiser.js:81-83 | the members emit 3 elements each, plus one per member with a head |
| GraphBuilder.BuildCount | standalone/lib/visualiser.js:74-90 | a sentence emits 3 per word, plus 1 per headed word, plus 1 per multiword token |
| GraphBuilder.ConlluToCyCount | standalone/lib/visualiser.js:74-90 | the same count for the whole conversion, which succeeds |
| GraphBuilder.CreateTokenIds | standalone/lib/visualiser.js:116-178 | a word's elements have distinct ids, all a word prefix on that word's padded id |
| GraphBuilder.SeparateIds | standalone/lib/visualiser.js:78 | ids built from disjoint word ids or disjoint positions never meet, and group ids never meet word ids |
| GraphBuilder.MemberElementsIds | standalone/lib/visualiser.js:81-83 | members with distinct ids emit distinct element ids |
| GraphBuilder.TokenBlockIds | standalone/lib/visualiser.js:77-86 | one token's elements have distinct ids, each a word id of the token or its group id |
| GraphBuilder.BuildIds | standalone/lib/visualiser.js:74-90 | with distinct word ids, all emitted ids are distinct; each is a word element id or a group id at a token position |
| GraphBuilder.ConlluToCyDistinctIds | standalone/lib/visualiser.js:74-90 | no two emitted elements share an id when no two words do |
| GraphBuilderGrouping.MultiwordGrouping | standalone/lib/visualiser.js:76-83 | a multiword token at position i yields group node `ns<i>` captioned form + subscripted " (first-last)". Every member's word-form node is parented to it and shows the member's lemma, or " " |
| GraphBuilderGrouping.PlainUngrouped | standalone/lib/visualiser.js:84-86 | a plain word's word-form node has no parent and shows its form, or " " |
| GraphBuilderGrouping.MemberInBuild | standalone/lib/visualiser.js:113-119 | each member's word-form node is in the output with the group as parent |
| GraphIntegrity.WordNodesPresent | standalone/lib/visualiser.js:116-126 | every word of the sentence has its `nf` and `np` nodes in the output |
| GraphIntegrity.GroupNodePresent | standalone/lib/visualiser.js:78-80 | every multiword token's group node is in the output |
| GraphIntegrity.EdgesResolve | standalone/lib/visualiser.js:137-140 | when every head names a word of the sentence, both ends of every edge are nodes of the output |
| GraphIntegrity.ParentsResolve | standalone/lib/visualiser.js:119 | the parent of every word-form node is a node of the output |
| Layout.SimpleIdSorting | standalone/lib/visualiser.js:189-197 | −1 exactly when id1 < id2, 1 exactly when id2 < id1, 0 exactly when the ids are equal |
| Layout.SimpleIdAntisymmetric | standalone/lib/visualiser.js:189-197 | swapping the arguments negates the result |
| Layout.SimpleIdTransitive | standalone/lib/visualiser.js:189-197 | the order it defines is transitive |
| Layout.SamePrefixOrder | standalone/lib/visualiser.js:190 | ids with one prefix compare as their token numbers below 100 |
| Layout.SimpleIdWordOrder | standalone/lib/visualiser.js:189-197 | word-form nodes of words below 100 go in increasing word order |
| Layout.SimpleIdWordsBeforePos | standalone/lib/visualiser.js:189-197 | every word-form node goes before every POS node |
| Layout.SimpleIdOrderBreaksAt100 | standalone/lib/visualiser.js:189-197 | word 100 is placed before word 99 |
| Layout.RtlSorting | standalone/lib/visualiser.js:200-211 | the result is −1, 0 or 1 |
| Layout.RtlAntisymmetric | standalone/lib/visualiser.js:200-211 | swapping the arguments negates the result |
| Layout.RtlWordOrder | standalone/lib/visualiser.js:200-203 | word-form nodes of words below 100 go in decreasing word order |
| Layout.RtlKeyOrder | standalone/lib/visualiser.js:200-211 | on word-form and POS nodes it is the order "word forms before POS, then id descending" |
| Layout.RtlTransitive | standalone/lib/visualiser.js:200-211 | on word-form and POS nodes it is transitive |
| Layout.RtlOtherTies | standalone/lib/visualiser.js:207-209 | a node of neither class ties with every node |
| Layout.VertAlSort | standalone/lib/visualiser.js:214-228 | with different numbers, the sign of the result is the sign of their difference; on a tie it is −1, 0 or 1 |
| Layout.VertAlAntisymmetric | standalone/lib/visualiser.js:214-228 | swapping the arguments negates the result |
| Layout.NumberOfElementId | standalone/lib/visualiser.js:215-216 | the number read from an element id is the id it was built from |
| Layout.VertAlWordOrder | standalone/lib/visualiser.js:214-218 | word-form nodes go in increasing word order, for any ids |
| Layout.VertAlPosBeforeWord | standalone/lib/visualiser.js:219-223 | a word's POS node goes right before its word-form node |
| Layout.VertAlGroupTies | standalone/lib/visualiser.js:214-228 | a group node ties with the word-form and POS nodes of its own number, while the POS node sorts before the word-form node |
| Layout.VertAlKeyOrder | standalone/lib/visualiser.js:214-228 | on word-form and POS nodes it is the order "number, then POS before word form" |
| Layout.VertAlTransitive | standalone/lib/visualiser.js:214-228 | on word-form and POS nodes it is transitive |
| Layout.FormLayout | standalone/lib/visualiser.js:57-71 | always a condensed `grid`, with two columns exactly when vertical and two rows otherwise |
| Layout.FormLayoutWordOrder | standalone/lib/visualiser.js:57-71 | word-form nodes below 100 come in increasing word order, decreasing only in the horizontal right-to-left layout |
| Layout.FormLayoutWordsFirst | standalone/lib/visualiser.js:62-69 | both two-row layouts put every word-form node before every POS node |
| Layout.FormLayoutVerticalPosFirst | standalone/lib/visualiser.js:59-61 | the two-column layout puts a word's POS node right before its word-form node, which sets `vertAlSort` apart from both two-row comparators |
| Layout.BoxSize | standalone/lib/visualiser.js:37-54 | vertical boxes are 1700 wide and 50 per token high. Horizontal boxes are 400 high, with width within [500, 1700], and equal to 150 per token when that lies in range |
| Layout.ChangeBoxSize | standalone/lib/visualiser.js:40-52 | the box is sized by the number of top-level tokens: 50 per token high when vertical, 150 per token wide when that lies in range |
| Layout.BoxSizeIgnoresMembers | standalone/lib/visualiser.js:40 | replacing a token by any other, plain or multiword with any members, leaves the box size unchanged |
| Layout.BoxSizeMonotone | standalone/lib/visualiser.js:37-54 | more tokens never shrink the box |
| Layout.VerticalBoxGrows | standalone/lib/visualiser.js:43 | each token adds 50 to the vertical box |
| Layout.BoxSizeClamp | standalone/lib/visualiser.js:45-50 | up to 3 tokens get the minimum width, 12 or more the maximum |
| Layout.BoxSizeExamples | standalone/lib/visualiser.js:37-54 | 4 tokens give 600×400, 1 gives 500×400, 20 give 1700×400, and 10 vertical give 1700×500 |

## Left out

- `conlluDraw` (lines 16-34) builds the renderer, using `window`, `document` and the style sheet. It is a foreign call.
- The CoNLL-U parser (`require("conllu")`, `sent.serial`) is external. Its output is the `Conllu.Token` datatype, and the model trusts what it hands over.
- The jQuery `.css` calls in `changeBoxSize` are side effects. Only the computed width and height are modelled.
- The colour constants (lines 5-9), the empty `sortNodes` stub (lines 184-186) and the commented-out TODO (lines 236-243) hold no logic.
- The source mutates the caller's token objects in place (lines 113-123). The model builds fresh records instead.
- Fields copied along by that aliasing are not modelled. This covers the fields the parser sets and `state = "normal"` (line 123).
- Geometry.Curvature: the 0.7 damping is exact `real` arithmetic. IEEE-754 rounding is not modelled.
- Layout.VertAlSort: it requires both id suffixes to be digit strings. This holds for every id the core builds. On other ids `vertAlSort` reads NaN.
- Layout.RtlTransitive, Layout.VertAlTransitive and Layout.RtlKeyOrder hold only for word-form and POS nodes. Neither comparator orders all nodes, for different reasons. Under `rtlSorting` a group node ties with every node (Layout.RtlOtherTies). Under `vertAlSort` a group node `ns<n>` is ordered by n against nodes of other numbers, but ties with both `nf<n>` and `np<n>`, which do not tie with each other (Layout.VertAlGroupTies).
- Subscript.ToSubscript: it walks the characters of its argument. The source iterates with jQuery `$.each` on a primitive string (line 100); the model assumes a jQuery version that walks the characters of a string (releases before 1.9 do; later ones apply `in` to the string and throw a TypeError). jQuery is not part of this model.
- Strings are Dafny strings, sequences of Unicode scalar values, while JavaScript strings are sequences of UTF-16 code units. The two agree on text inside the Basic Multilingual Plane. Outside it they differ: "𝒜" has JavaScript length 2 but length 1 here, so the `length` hints (lines 120 and 168) and string `<` (line 190, Layout.SimpleIdSorting, LexOrder.Less) of such text are not modelled faithfully.
- Token ids are naturals. Empty nodes (decimal ids such as `3.1`) and negative heads are not modelled. Number width is not modelled either: ids and heads are unbounded, while JavaScript numbers are doubles, and `String(n)` switches to exponent form (`1e+21`) from 10^21 on.
- GraphBuilder.GroupLabel: for an empty member list it uses an empty range. `ConlluToCy` never reaches that case, because it returns `None` there, where `conllu2cy` throws.
- GraphIntegrity.EdgesResolve: it assumes every head names a word of the sentence. The visualiser does not check this, and a dangling head gives an edge to a missing node.
