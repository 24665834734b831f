# Verified models of the email-to-Telegram gateway

The gateway accepts mail for user aliases and delivers it to Telegram. This project models its hardest parts and
proves what they promise. Every proof is about all inputs, all runs or all interleavings; what the outside decides
(Telegram's answers, crashes, clocks, random values, lost database writes) is an argument or a step of a machine.
Code that changes state in the source is a class or a method here; each such method is proved equal to a function of
the old state, and the laws are proved about those functions over whole runs.

- **Rendering mail** (`Html*.dfy`, `TableLayout.dfy`). Any DOM tree becomes classic and rich Telegram markup. Markup
  is a sequence of tokens; `HtmlReadBack.StringReadsBack` ties it to the string that is sent. Both markups are well
  formed, no link holds a link or code, code holds only text; exactly which trees leave Telegram's closed tag set is
  proved in `HtmlMarks.dfy`, `HtmlRawTag.dfy`, `HtmlClosedTags.dfy` and `HtmlOrdinary.dfy`. The rich form is at most
  as deep as reported and 16 deep, and is made only of a document no limit cut short. It shows exactly the runs of the
  tree (`HtmlRuns.dfy`, `HtmlShown.dfy`); exactly which trees have all their text shown is proved in `HtmlWhole.dfy`.
  The classic form loses no more than header rows of record tables, and of those it shows exactly the texts that head
  a field (`HtmlClassicInk.dfy`, `HtmlClassicTree.dfy`). A tree cut short shows nothing that is not in it
  (`HtmlCutShort.dfy`). Every link points where the tree says and shows what it says (`HtmlTargets.dfy`,
  `HtmlBlockLinks.dfy`, `HtmlDestinations.dfy`, with `HtmlBareLinks.dfy` for URLs in text), and every character is
  inside exactly the elements its block and its content call for (`HtmlFaces.dfy`, `HtmlTreeBlocks.dfy`,
  `HtmlLook.dfy`, `HtmlTables.dfy`). The string that is sent reads back as the rendered tokens (`HtmlReadBack.dfy`),
  white space follows one rule (`HtmlSpacing.dfy`), and the limits bound what is sent (`HtmlLimits.dfy`).
- **Stored encryption** (`Gcm.dfy`, `Encryption.dfy`, `Backfill.dfy`, `KeyRotation.dfy`). The streaming forms agree with
  the one-shot forms for every chunking; AES-GCM is an abstract stream and tag (sections 7.1 and 7.2 of NIST SP
  800-38D). Encrypting existing files survives a crash between any two writes, exactly when the plaintext does not start
  with the magic bytes.
- **First-bounce notice and its one-tap button** (`Activation.dfy`, `ActivationRuns.dfy`). Jobs, taps, moves, deliveries
  and cleanup interleave statement by statement on one alias.
- **Alias routing** (`Routing.dfy`, `RoutingRuns.dfy`, `LockOrdering.dfy`). Version-guarded moves, migration repair, an
  audit log that chains, and the order in which advisory locks are taken.
- **Delivery and quota** (`Delivery.dfy`, `Quota.dfy`, `DeliveryStore.dfy`). The life of a log with its retry budget, and
  the conservation of charges and refunds.
- **Smaller machines**: `NoticeQueue.dfy` (a semaphore whose waits can be given up), `Shutdown.dfy` and `InFlight.dfy`,
  `Sender.dfy`, `Impersonation.dfy`, `RateLimit.dfy`.

Some findings, each with its exact condition:

- The table of inline styles is an object literal, so an element named `constructor` finds the inherited `Object`
  function, and both markups get its source text as a tag (`HtmlClosedTags.ConstructorIsWritten`), although
  src/utils/structuredEmailHtml.ts:187-191 promises that no source tag is passed through. Both stay in the closed set
  exactly if no rendered such element has text without code (`HtmlClosedTags.TagsClosedExactlyWhen`).
- Text of a list outside its items is lost, and so are lists that are direct children of lists
  (`HtmlWhole.NestedListIsLost`), and text of a table outside the cells of its rows, captions of layout tables included.
  The predicate `HtmlWhole.Whole` names all such places; what lies elsewhere is shown, in order
  (`HtmlWhole.ShowsAllTextExactlyWhen`).
- A plaintext that starts with the four magic bytes is lost by a crash between sidecar and file
  (`Backfill.SafeExactlyWithoutMagic`). The source assumes mail and attachments do not start that way.
- Rotating master keys as README.md:389-395 of the repository describes, older keys kept until the stored data keys are
  rewrapped, loses a file whose backfill was cut after the file was replaced: its only key is in a sidecar, which neither
  the rewrap job nor the check at startup looks at (`KeyRotation.CutBackfillIsLost`). Over all runs of cut backfills,
  rewraps and restarts a file is lost exactly when an accepted restart drops the key of an unfinished backfill
  (`KeyRotation.RotationLosesExactlyWhen`); a completed backfill before the rotation avoids it.
- The streaming decryptor reports another error than the one-shot one exactly where it looks at key and header in
  another order (`Encryption.ReportsAnotherError`).
- Replaying a migration repair is a no-op unless a chat migrated to itself (`Routing.ReplayIsNoOpExactlyWhen`).
- The lock order is ascending, hence free of deadlock, exactly when the chat key is below all user ids. That holds for
  groups. A move to the actor's own private chat, whose key is the actor's positive id, takes it before a smaller owner
  id (src/telegram/menu/moveMenu.ts:200-205) and can wait in a circle (`LockOrdering.OwnChatMoveCanDeadlock`), although
  the comments in src/db/repos/aliasRouting.ts:119-125 promise freedom from deadlock.
- A refund looks at how a log ended, not at whether the text arrived: mail that reached the chat can be refunded,
  although src/email/pipeline/deliver.ts:407-408 says that an abort for migration cannot trigger a refund. After text
  arrived that is possible exactly if the arrival was not acknowledged, or the delivery handed the log back by that
  abort, or no write of the outcome was confirmed, with the guards spelled out in
  `Delivery.ArrivedTextIsRefundableExactlyWhen`. Four families of runs show it: `RefundDespiteDeliveredText`,
  `RefundAfterUnconfirmedOutcome`, `RefundWithoutAnyRow` and `LostAcknowledgementIsRefunded`.
- A stored row without a key id follows whichever master key is current: rewrapping leaves it, and another current key
  loses it even while the old key is in the ring. That holds for exactly these rows
  (`Encryption.OldKeysCanBeDroppedExactlyWhen`).
- The impersonation guard reads every 1 as i or l up to five of them; with more, a mixed brand slips through
  (`Impersonation.MixedBrandSlipsThrough`). It is exact for every block list exactly up to five
  (`Impersonation.ExactUpToFiveOnes`).

`dafny verify dfyconfig.toml` checks the whole project.

## Model

| member | source | states |
|---|---|---|
| HtmlEscape.EscapeIsPerCharacter | src/utils/html.ts:7-17 | the chained replacements escape every character on its own, for both escape functions, however entities overlap |
| HtmlEscape.EscapeLeavesNoMarkup | src/utils/html.ts:1-17 | escaped text holds no angle bracket, escaped attribute values no double quote either |
| HtmlEscape.UnescapeRestores | src/utils/html.ts:7-17 | decoding the entities gives the original text back, for all text |
| HtmlTokens.SerializedMarkupIsExact | src/utils/structuredEmailHtml.ts:795-845 | the written string splits at its angle brackets into exactly the intended tags and characters, whatever text and attribute values hold |
| HtmlReadBack.StringReadsBack | src/utils/structuredEmailHtml.ts:795-845 | the string that is sent, read back by a reader that knows the element and attribute names, is exactly the rendered tokens, whatever texts and attribute values are |
| HtmlReadBack.TagReadsBack | src/utils/structuredEmailHtml.ts:795-845 | a written tag reads back as its element and its attributes, values decoded, in order |
| HtmlTokens.WrapFits | src/utils/structuredEmailHtml.ts:799-818 | an element around content that fits inside it nests properly, one level deeper, showing the same characters |
| HtmlNormalize.NormalizeClassicAlike | src/utils/structuredEmailHtml.ts:1235-1243 | normalising white space of classic markup keeps nesting, depth, tags with their attributes and visible characters |
| HtmlNormalize.NormalizeRichAlike | src/utils/structuredEmailHtml.ts:1245-1248 | collapsing breaks and spaces of rich markup keeps nesting, depth, tags with their attributes and visible characters |
| HtmlNormalize.NormalizeTextKeepsInk | src/utils/structuredEmailHtml.ts:1225-1233 | normalising plain text removes or merges only white space |
| HtmlSpacing.NormalizeClassicSqueezes | src/utils/structuredEmailHtml.ts:1235-1243 | the five regular expressions come to one rule: a longest stretch of blanks becomes a space, one line break or two, by the number of its line breaks |
| HtmlSpacing.NormalizeRichSqueezes | src/utils/structuredEmailHtml.ts:1245-1248 | in the rich form three breaks or more with the white space around them become two, and of spaces in a row one stays |
| HtmlSpacing.TrimCuts | src/utils/structuredEmailHtml.ts:1235-1248 | trimming takes the white space at both ends, all of it and nothing else |
| HtmlSpacing.SpaceByCode | src/utils/structuredEmailHtml.ts:1225-1248 | white space by code point, the WhiteSpace and LineTerminator characters of sections 12.2 and 12.3 of ECMA-262 |
| HtmlLinks.TrimLinkCandidate | src/utils/structuredEmailHtml.ts:1326-1350 | the linear trimmer with running bracket counts returns what recounting the brackets of the rest at every step returns |
| HtmlLinks.CutLast | src/utils/structuredEmailHtml.ts:1335-1348 | the running counts decide correctly whether the last character is prose, and stay correct when it is cut |
| HtmlLinks.TrimProse | src/utils/structuredEmailHtml.ts:1321-1325 | the reference trimmer: the longest prefix that does not end in prose |
| HtmlLinks.MatchesInOrder | src/utils/structuredEmailHtml.ts:1291-1296 | the bare-link matches follow one another without overlap |
| HtmlBareLinks.MatchesAreUrls | src/utils/structuredEmailHtml.ts:1315-1316 | each match is a scheme, in any case, and all characters behind it that are no space, angle bracket or quotation mark, one at least |
| HtmlBareLinks.UrlsAreMatched | src/utils/structuredEmailHtml.ts:1291-1296 | each such URL of a text begins inside a match |
| HtmlBareLinks.CandidateExactlyWhen | src/utils/structuredEmailHtml.ts:1317-1350 | the candidate is the longest beginning of a match of at most 2048 characters that ends neither in punctuation nor in a closer it has too many of |
| HtmlLinks.LinkingKeepsText | src/utils/structuredEmailHtml.ts:1274-1313 | linking bare URLs in any text leaves the shown text unchanged and makes only flat links |
| HtmlDom.ParseContext.EnterNode | src/utils/structuredEmailHtml.ts:1250-1262 | a node is entered only within the depth and visit limits, and a refused one reports its limit |
| HtmlLimits.EnteredExactlyWhen | src/utils/structuredEmailHtml.ts:1250-1262 | a node is entered if and only if it is at most 32 levels deep and one of the first 20000 visited; which limit is reported otherwise |
| HtmlLimits.StartsUncut | src/utils/structuredEmailHtml.ts:192-202 | a parse starts with no node visited and counts as cut exactly if its input or its tree was |
| HtmlInline.CombineSound | src/utils/structuredEmailHtml.ts:435-463 | joining sound parts and normalising them keeps the flags true |
| HtmlInline.AnchorSound | src/utils/structuredEmailHtml.ts:584-604 | a link is made only around content without link or code; a nested link is kept and the outer one dropped |
| HtmlInline.FormattedSound | src/utils/structuredEmailHtml.ts:606-627 | code holds only text, and content with code is not wrapped again by its flag, by the looked-up style, the inherited one included |
| HtmlInline.OwnLineSound | src/utils/structuredEmailHtml.ts:564-582 | list items and definitions on lines of their own keep the flags true |
| HtmlInline.ParseInlineSound | src/utils/structuredEmailHtml.ts:435-637 | for every list of nodes: both markups balanced over the inline tags and the native one, no link in a link, depth at most maxDepth, code present only if containsCode or containsAnchor, text and both markups show the same characters |
| HtmlBudget.ParseInlineAgrees | src/utils/structuredEmailHtml.ts:435-637 | if no limit is reported, the bounded inline parse is exactly the parse without limits |
| HtmlBudget.CollectTextAgrees | src/utils/structuredEmailHtml.ts:982-1010 | the same for text collected from nested tables and preformatted blocks |
| HtmlBlocks.PushedSize | src/utils/structuredEmailHtml.ts:1034-1036 | the stack of nodes to look at shrinks in total size, so the strong-cell search ends |
| HtmlBlockLaws.BuildTableSound | src/utils/structuredEmailHtml.ts:361-388 | choosing header rows, key columns and the table kind keeps all cells sound |
| HtmlTables.TableKindExactlyWhen | src/utils/structuredEmailHtml.ts:361-388 | a table is one of records if and only if it has one header row, a key-value table if and only if all rows are pairs with a label each and it has no header row, and a grid otherwise; which cells become headers, and nothing else changes |
| HtmlTables.PairsExactlyWhen | src/utils/structuredEmailHtml.ts:1098-1113 | a key-value row has an even number of unspanned cells, a filled pair, and a label as the key of every filled pair |
| HtmlTables.LabelExactlyWhen | src/utils/structuredEmailHtml.ts:1115-1118 | a text is a label if and only if it is one line of 1 to 64 characters with a letter, not counting the white space around it |
| HtmlTables.StrongCellExactlyWhen | src/utils/structuredEmailHtml.ts:1012-1049 | a cell is strong if and only if it has visible text and all of it is bold by the nearest style or element around it, whatever order the stack takes the nodes in |
| HtmlTables.CellKeeps | src/utils/structuredEmailHtml.ts:421-433 | a cell is a header exactly if it is a th, keeps spans from 1 to 500 and the known alignments only |
| HtmlTables.CellAttrsReadBack | src/utils/structuredEmailHtml.ts:823-845 | the attributes a cell is written with, read back as numbers and names, give its spans and alignment |
| HtmlTables.ListTagReadsBack | src/utils/structuredEmailHtml.ts:803-808 | the tag of a list says whether it is numbered and where it starts |
| HtmlBlockLaws.ParseTableLaw | src/utils/structuredEmailHtml.ts:337-389 | a table becomes a data table or the blocks of its cells, sound, and the unbounded result if no limit is reported |
| HtmlBlockLaws.ParseBlocksLaw | src/utils/structuredEmailHtml.ts:229-335 | for every tree: sound blocks, at most 600, and the blocks of the unbounded parse if no limit is reported |
| HtmlRender.MeasureRichStats | src/utils/structuredEmailHtml.ts:847-895 | the loop over the blocks computes the statistics as a fold of per-block amounts |
| HtmlRenderLaws.MeasuredDepthBounds | src/utils/structuredEmailHtml.ts:853-891 | the reported depth bounds the depth of every block |
| HtmlRenderLaws.RichTableShows | src/utils/structuredEmailHtml.ts:823-845 | a rich table has rows and caption in the table, cells in rows, within the measured depth, showing caption and cells in order |
| HtmlRenderLaws.RenderRichShows | src/utils/structuredEmailHtml.ts:795-821 | the rich form is a well-formed document, shows exactly the blocks' characters, and links only if links are reported |
| HtmlRenderLaws.ClassicTableOk | src/utils/structuredEmailHtml.ts:676-721 | key-value, record and grid tables render to well-formed classic markup |
| HtmlRenderLaws.QuotedScan | src/utils/structuredEmailHtml.ts:661-662 | putting a quote mark after every newline changes no nesting |
| HtmlRenderLaws.RenderClassicOk | src/utils/structuredEmailHtml.ts:639-670 | the classic form of all blocks is well formed with only inline tags, the native one and pre |
| HtmlRenderLaws.RenderedDocument | src/utils/structuredEmailHtml.ts:192-227 | for every tree: both markups well formed; a rich form only of the whole document, at most as deep as reported and 16, showing exactly its characters |
| HtmlLimits.RichExactlyWhen | src/utils/structuredEmailHtml.ts:897-917 | a rich form is sent if and only if nothing was cut and text, blocks, columns and depth are within 32768, 500, 20 and 16; it then shows at most so many characters and opens at most so many elements |
| HtmlLimits.CountedText | src/utils/structuredEmailHtml.ts:847-895 | the statistics count exactly the characters of all text of the blocks, and no fewer columns than any table has |
| HtmlLimits.CountedElements | src/utils/structuredEmailHtml.ts:847-895 | the statistics count exactly the paragraphs, headings, lists, items, quotes, footers, tables, rows and rules of the rich form |
| HtmlInk.CollectTextInk | src/utils/structuredEmailHtml.ts:982-1010 | collected text shows exactly the characters of the nodes below, and is empty only where there are none |
| HtmlInk.LinkedRunsText | src/utils/structuredEmailHtml.ts:498-515 | linking runs of plain parts changes no text, however the runs fall |
| HtmlInk.ParseInlineInk | src/utils/structuredEmailHtml.ts:435-637 | for every list of nodes, without limits: the text shows exactly the visible characters of the nodes and the list markers, in order, and is dropped as empty only if they show nothing |
| HtmlShown.KeptRowShown | src/utils/structuredEmailHtml.ts:1074-1081 | dropping empty columns loses nothing any row shows |
| HtmlShown.ColumnsAgree | src/utils/structuredEmailHtml.ts:1074-1081 | the columns that decide about a data table are, without spans, those in which some row of the tree shows text |
| HtmlShown.DataTableShown | src/utils/structuredEmailHtml.ts:337-389 | a data table, told from the tree alone, is one block of its caption and all cells of its rows, in order |
| HtmlShown.ParseBlocksShown | src/utils/structuredEmailHtml.ts:229-335 | for every tree, without limits: the blocks show exactly the runs read off the tree, each parsed as it stands, in document order, and no block is empty |
| HtmlTreeBlocks.ParseBlocksTree | src/utils/structuredEmailHtml.ts:229-335 | for every tree, without limits: the blocks are those read off the tree, every element as the block it stands for: headings with their level, quotes, footers, lists with their number, rules, preformatted text, tables, paragraphs |
| HtmlTreeBlocks.PreIsVerbatim | src/utils/structuredEmailHtml.ts:285-292 | preformatted text without carriage returns or white space at its end is kept exactly |
| HtmlLook.RenderRichLook | src/utils/structuredEmailHtml.ts:795-845 | every character of the rich form of any blocks is inside exactly the elements of its block, with their attributes, and the formats of its content |
| HtmlLook.RenderClassicLook | src/utils/structuredEmailHtml.ts:639-721 | the classic form of any blocks shows exactly these characters with these formats: list numbers counting on from the start, bold headings, keys and titles, labels, dots and quote marks included |
| HtmlLook.ContentLook | src/utils/structuredEmailHtml.ts:435-637 | the content of a block: in either form every character is inside exactly the links and formats the tree puts around it |
| HtmlLook.LookOfDocument | src/utils/structuredEmailHtml.ts:192-227 | for every document that is sent whole: both forms look as the blocks read off the tree do |
| HtmlWhole.InlineLaw | src/utils/structuredEmailHtml.ts:435-637 | inline content shows all text of its nodes in order, exactly if no br holds text |
| HtmlWhole.DataTableLaw | src/utils/structuredEmailHtml.ts:337-389 | a data table shows all its text in order exactly if the text is in cells or the first caption and moving the caption first changes nothing |
| HtmlWhole.ShowsAllTextExactlyWhen | src/utils/structuredEmailHtml.ts:229-335 | for every tree: what is shown, list markers aside, adds no character, and is all text in document order if and only if no text lies in a lost place |
| HtmlWhole.NestedListIsLost | src/utils/structuredEmailHtml.ts:293-305 | of a list directly inside a list the text is lost |
| HtmlWhole.RichShowsTheTree | src/utils/structuredEmailHtml.ts:192-227 | whenever a rich form is produced it shows exactly the ink of the tree, list markers included |
| HtmlMarks.MarksOfInline | src/utils/structuredEmailHtml.ts:435-515 | for every list of nodes, without limits: its content is flagged to hold a link or code if and only if the tree does, with bare URLs searched in whole runs of text that pass through empty elements and plain wrappers |
| HtmlTargets.TargetsOfInline | src/utils/structuredEmailHtml.ts:435-637 | for every list of nodes, in both markups: the links, in order, with destination and shown characters, are those of the tree: safe href and whole content of the anchors that hold no link, and in the rich form the bare URLs |
| HtmlTargets.TargetsOfAnchor | src/utils/structuredEmailHtml.ts:584-604 | a link points to the safe form of its own href and shows its whole content; without one, or around a link, the content keeps its links |
| HtmlFaces.FacesOfInline | src/utils/structuredEmailHtml.ts:435-637 | for every list of nodes, in both markups: every visible character is inside exactly the formats and the link the tree says, in this order, list markers included |
| HtmlBlockLinks.RenderRichLinks | src/utils/structuredEmailHtml.ts:795-845 | the links of the rich form of any blocks are those of their contents in order |
| HtmlBlockLinks.RenderClassicLinks | src/utils/structuredEmailHtml.ts:639-721 | the links of the classic form are those of the contents it writes as markup, apart from quote marks inside them |
| HtmlDestinations.ParseInlineDestined | src/utils/structuredEmailHtml.ts:435-637 | for every budget: each link of either markup is one of an anchor below, to its safe href and showing nothing its content does not hold, or in the rich markup of the bare URL it shows |
| HtmlDestinations.LinksAreDestined | src/utils/structuredEmailHtml.ts:192-227 | the same for both forms of every document, however much of it was cut |
| HtmlDestinations.WholeLinks | src/utils/structuredEmailHtml.ts:229-335 | of a tree parsed without limits the rich form has exactly the links of the tree in order; so has the classic form, but for bare URLs, quote marks and cells shown as labels |
| HtmlDestinations.LinksOfDocument | src/utils/structuredEmailHtml.ts:192-227 | the same for every document that is sent whole |
| HtmlRawTag.ParseInlineNative | src/utils/structuredEmailHtml.ts:606-627 | for every list of nodes: the markup holds the native tag if and only if some constructor element has text and no code in it and nothing around it reduces it to text |
| HtmlRawTag.RichNative | src/utils/structuredEmailHtml.ts:795-845 | the rich form of any blocks is in the closed set if and only if no shown content holds the tag |
| HtmlClosedTags.ClassicClosedExactlyWhen | src/utils/structuredEmailHtml.ts:639-721 | the classic form of any blocks is in the closed set if and only if no content it writes as markup holds the tag |
| HtmlClosedTags.ClassicDocumentClosed | src/utils/structuredEmailHtml.ts:192-227 | the same for the classic form of every document, cut short or not |
| HtmlClosedTags.TagsClosedExactlyWhen | src/utils/structuredEmailHtml.ts:59-70 | for every tree no limit cut short: both forms stay in the closed tag set if and only if the tree does not write the native tag |
| HtmlClosedTags.ConstructorIsWritten | src/utils/structuredEmailHtml.ts:606-627 | an element named constructor with text leaves the closed set in both forms |
| HtmlOrdinary.OrdinaryDocumentsAreClosed | src/utils/structuredEmailHtml.ts:192-227 | for every tree without such an element, cut short or not: both forms stay in the closed tag set |
| HtmlOrigins.ParseBlocksFrom | src/utils/structuredEmailHtml.ts:229-335 | for every budget: every content of every block was parsed from nodes of the tree |
| HtmlClassicInk.HeaderCoversItsColumns | src/utils/structuredEmailHtml.ts:1158-1166 | the label of a record field is the text of the one header cell that covers its column, empty if none does |
| HtmlClassicInk.KeyValuePairsKeep | src/utils/structuredEmailHtml.ts:679-697 | the pairs of a key-value row show all its labels and values in order, odd and empty cells included |
| HtmlClassicInk.RecordKeeps | src/utils/structuredEmailHtml.ts:699-714 | title and fields of a record together show all cells of its row in order, each field behind its label |
| HtmlClassicInk.FieldsAreLabelled | src/utils/structuredEmailHtml.ts:702-708 | the fields of a record begin with its labels, one each |
| HtmlClassicInk.HeaderIsShownExactlyWhen | src/utils/structuredEmailHtml.ts:699-714 | a text labels some field of a record table if and only if it is that of a header cell covering a column, other than the first, in which some record has text, or the substitute for such a column without a header text |
| HtmlClassicInk.ClassicLosesNothing | src/utils/structuredEmailHtml.ts:639-721 | the classic form shows all visible characters of any blocks in order, for record tables those of the records with the labels of their fields in place of the header row |
| HtmlClassicTree.ParseBlocksText | src/utils/structuredEmailHtml.ts:229-335 | for every tree, without limits: the classic ink of the blocks is the ink of the tree in document order, record tables with the labels of their fields in place of the header row |
| HtmlClassicTree.WholeTextIsInk | src/utils/structuredEmailHtml.ts:229-335 | read with all cells of every data table, the same reading of the tree gives its ink |
| HtmlClassicTree.BodyWithinTable | src/utils/structuredEmailHtml.ts:676-721 | a data table keeps the ink of its caption and of all its rows, a record table that of all rows but the first with text |
| HtmlClassicTree.ClassicShowsTheTree | src/utils/structuredEmailHtml.ts:192-227 | if no limit cut the tree short, the classic form shows the ink of the tree in order, but that of the header rows of record tables, for which it shows the labels; without record tables all of it, and all text of a tree that has none in a lost place |
| HtmlCutShort.RowsDrawn | src/utils/structuredEmailHtml.ts:337-360 | the rows a table is read from and its first caption are in the table, and nothing is in both |
| HtmlCutShort.ParseBlocksDrawn | src/utils/structuredEmailHtml.ts:229-335 | for every tree and every state of the budget: the blocks hold no visible character that the text of the tree with its list markers does not hold, and none more often |
| HtmlCutShort.DocumentAddsNothing | src/utils/structuredEmailHtml.ts:192-227 | the same for the blocks of every document, cut short or not, with the notice the only addition |
| HtmlParser.CollectText | src/utils/structuredEmailHtml.ts:982-1010 | the loop over nodes with its break computes the text and leaves the context the specification says |
| HtmlParser.LinkifyPlainRuns | src/utils/structuredEmailHtml.ts:498-515 | the loop joins each maximal run of plain parts and links the joined text once |
| HtmlParser.ParseInline | src/utils/structuredEmailHtml.ts:435-463 | inline parsing over the mutable context computes the specified content and context |
| HtmlParser.ExpandInlineNode | src/utils/structuredEmailHtml.ts:472-495 | transparent wrappers hand their children up, on the mutable context |
| HtmlParser.ParseElement | src/utils/structuredEmailHtml.ts:526-636 | one element, on the mutable context: the content whose links and formats `HtmlTargets.TargetsOfElement` and `HtmlFaces.FacesOfElement` read off the tree |
| HtmlParser.ContainsNestedTable | src/utils/structuredEmailHtml.ts:969-980 | the search with its early returns, on the mutable context |
| HtmlParser.IsEntireCellStrong | src/utils/structuredEmailHtml.ts:1012-1040 | the stack loop decides whether there is visible text and all of it is strong |
| HtmlParser.ParseBlocks | src/utils/structuredEmailHtml.ts:229-335 | the block loop with its inline run and its break computes the specified blocks and context |
| HtmlParser.VisitNode | src/utils/structuredEmailHtml.ts:256-284 | one sibling: dropped, added to the run, or flushed and turned into blocks |
| HtmlParser.ParseTableElement | src/utils/structuredEmailHtml.ts:337-389 | table parsing on the mutable context |
| HtmlParser.FlattenLayoutTable | src/utils/structuredEmailHtml.ts:391-419 | layout tables become the blocks of their cells, on the mutable context |
| HtmlParser.RenderStructuredEmailHtml | src/utils/structuredEmailHtml.ts:192-227 | the whole document, with its notice and eligibility, on the mutable context |
| TableLayout.FindColumn | src/utils/structuredEmailHtml.ts:1134-1142 | the first column at or after the cursor that is free for the whole span; the search ends |
| TableLayout.CellsNeverOverlap | src/utils/structuredEmailHtml.ts:1124-1156 | for all spans: placed cells are pairwise disjoint, lie within the logical columns, and sit as far left as earlier cells allow |
| TableLayout.PositionTableRows | src/utils/structuredEmailHtml.ts:1124-1156 | the loops over the occupancy array place every cell as specified and count the logical columns |
| TableLayout.PositionRow | src/utils/structuredEmailHtml.ts:1133-1151 | one row of that loop |
| TableLayout.NextFreeColumn | src/utils/structuredEmailHtml.ts:1134-1142 | the two column searches together find the leftmost free column |
| Gcm.CryptTwice | src/security/encryption.ts:271-277 | decrypting what was encrypted at the same offset gives the data back |
| Gcm.CryptConcat | src/security/encryption.ts:423-437 | encrypting in pieces at running offsets is encrypting the whole |
| Encryption.UnwrapRestores | src/security/encryption.ts:382-409 | a wrapped data key comes back under every ring that still holds its master key |
| Encryption.BlobOpens | src/security/encryption.ts:158-191 | an encrypted blob opens to its plaintext and starts with the magic bytes |
| Encryption.BlobLayout | src/security/encryption.ts:245-278 | a blob is the four magic bytes, version 1, twelve bytes of IV, the ciphertext and sixteen of tag |
| Encryption.DecryptsByBytes | src/security/encryption.ts:245-367 | what both decryptors make of the bytes of a file: truncated, wrong magic, unsupported version, or opened exactly if the last sixteen bytes are the tag |
| Encryption.DecryptsByMetadata | src/security/encryption.ts:245-367 | what mode, provider and wrapped key decide for both decryptors: unencrypted files are handed on, the rest refused with their own error and nothing emitted |
| Encryption.RoundTrip | src/security/encryption.ts:158-278 | encrypt then decrypt, whole or streamed, under every later ring that holds the key, and with no provider at all |
| Encryption.PushCiphertext | src/security/encryption.ts:423-438 | the last sixteen bytes seen are held back and everything before them decrypted |
| Encryption.DecryptStream | src/security/encryption.ts:305-366 | for every chunking, the emitted bytes and the final error depend only on the concatenated bytes, as specified |
| Encryption.DecryptStreamFromStorage | src/security/encryption.ts:280-367 | for every chunking and all metadata, the stream succeeds with the same bytes as the buffer decryptor, fails when it fails, with the same error except exactly where the order of checks differs |
| Encryption.EncryptStream | src/security/encryption.ts:450-466 | for every chunking of the source, the chunks written concatenate to the one-shot blob |
| Encryption.EncryptStreamForStorage | src/security/encryption.ts:193-231 | streaming encryption stores the same bytes and metadata as encrypting the whole buffer |
| Encryption.RewrapKeepsDataKey | src/security/encryption.ts:134-156 | rewrapping keeps the data key, moves it to the current master key, is idempotent and changes nothing else |
| Encryption.OldKeysCanBeDroppedExactlyWhen | src/security/encryption.ts:134-156 | after rewrapping the other master keys may go, under every cipher, if and only if the row records its key id or the current key stays current |
| Encryption.KeylessRowIsLost | src/security/encryption.ts:134-156 | a row without key id is left by rewrapping, and under some cipher a ring with another current key cannot open it |
| Backfill.OpensOnce | src/storage/disk.ts:151-169 | a file that opens under a key is exactly one header and tag longer than the original: it was encrypted once |
| Backfill.BackfillKeepsSafe | src/storage/disk.ts:151-198 | one run, cut after any number of writes, loses nothing; a completed run leaves a row that reads the original and no sidecar |
| Backfill.RunsKeepSafe | src/storage/disk.ts:151-198 | any sequence of runs with any providers, each cut anywhere, keeps the file safe |
| Backfill.MagicPlaintextIsLost | src/storage/disk.ts:155-161 | a plaintext starting with the magic bytes is lost by a cut between sidecar and file |
| Backfill.SafeExactlyWithoutMagic | src/storage/disk.ts:384-389 | every sequence of cut runs is safe if and only if the plaintext does not start with the magic bytes |
| Backfill.UncutRunExactly | src/storage/disk.ts:151-198 | what a run that is not cut does to a record, and in how many writes: a file encrypted under a sidecar with key and key id is resumed, any other encrypted |
| Backfill.RewrapKeepsReadable | src/security/storageMaintenance.ts:46-67 | rotating master keys keeps an encrypted file readable through its row |
| KeyRotation.RecoverableExactlyWhen | src/security/encryption.ts:391-410 | a file that is safe with all master keys is recoverable with a ring if and only if the ring holds the key that its row, or the sidecar of an unfinished backfill, names |
| KeyRotation.EveryRun | src/security/storageMaintenance.ts:26-105 | in every run of cut backfills, rewraps and restarts with any rings: nothing is lost as long as all keys exist somewhere, and the file is recoverable with the present ring if and only if it holds the key the file rests on |
| KeyRotation.StepLosesExactlyWhen | src/startup/storageReadiness.ts:65-85 | a step loses a recoverable file if and only if it is a restart the check at startup accepts although the ring lacks the key of an unfinished backfill |
| KeyRotation.RotationLosesExactlyWhen | src/startup/storageReadiness.ts:65-85 | from a plain file it is recoverable at every point of a run if and only if no accepted restart drops the key of an unfinished backfill |
| KeyRotation.DroppingOldKeysExactlyWhen | src/security/storageMaintenance.ts:74-105 | rewrapping and then dropping all keys but the current one is accepted, and keeps the file if and only if no unfinished backfill rests on an older key |
| KeyRotation.FillThenRotateIsSafe | src/security/storageMaintenance.ts:74-105 | with a completed backfill first the rotation always keeps the file |
| KeyRotation.CutBackfillIsLost | src/storage/disk.ts:151-169 | the failing run: a backfill cut before the row, a new current key, the rewrap, the older key dropped |
| Backfill.BackfillAllKeepsSafe | src/security/storageMaintenance.ts:197-254 | a run over all rows, cut anywhere, keeps every file; a completed one makes every row read its original |
| Backfill.EnoughWritesComplete | src/security/storageMaintenance.ts:197-254 | a run with seven writes for every record completes |
| Backfill.Storage.ReplaceFile | src/storage/disk.ts:47-52 | contents appear under their name only with the rename, whole |
| Backfill.Storage.BackfillFile | src/storage/disk.ts:151-169 | resume from the sidecar or encrypt, sidecar first, touching nothing else on disk |
| Backfill.Storage.BackfillRow | src/security/storageMaintenance.ts:197-222 | file, then row, then sidecar, for one row and no other |
| Backfill.Storage.BackfillStoredEncryption | src/security/storageMaintenance.ts:176-254 | the maintenance loop does to all records what the specification says, up to the cut |
| Activation.DomainRuleIsStable | src/telegram/allowValue.ts:11-22 | a normalised domain rule normalises to itself |
| Activation.UsableFromDomain | src/activation/notice.ts:82-88 | a usable From domain is a normalised domain rule of at most 253 characters |
| Activation.DomainExactlyWhen | src/telegram/allowValue.ts:3-22 | a domain rule has two labels or more, of letters, digits and inner hyphens |
| Activation.OneTapExactlyWhen | src/activation/notice.ts:82-101 | the button offers a domain if and only if the check passed, both header From values name it and it is among the authenticated domains |
| Activation.ClaimExactlyWhen | src/db/repos/aliasActivation.ts:179-211 | a claim is taken if and only if the alias has no row, or has not delivered, has fewer than three claims and none within 24 hours; what it writes |
| Activation.TokenLivesSevenDays | src/db/repos/aliasActivation.ts:179-211 | the token of a claim, and no other, works for exactly the seven days after it |
| Activation.StatementsExactlyWhen | src/db/repos/aliasActivation.ts:59-103 | which column each of the other statements changes, and when |
| Activation.Tables.ClaimActivationNotice | src/db/repos/aliasActivation.ts:179-211 | the guarded upsert takes a claim or changes nothing, on this row only |
| Activation.Tables.SetActivationDomain | src/db/repos/aliasActivation.ts:214-225 | the domain is stored only while the token is the live one |
| Activation.Tables.ConsumeActivationToken | src/db/repos/aliasActivation.ts:312-333 | a live token is spent once and its claim returned |
| Activation.Tables.MarkAliasFirstDelivered | src/db/repos/aliasActivation.ts:59-69 | the marker is written once and never moved |
| Activation.Tables.ClearExpiredActivationTokens | src/db/repos/aliasActivation.ts:96-103 | token and domain of every expired claim are cleared, nothing else |
| Activation.Tables.RecordActivationNoticeSent | src/db/repos/aliasActivation.ts:291-297 | the first acknowledgement is kept, the latest updated |
| Activation.Tables.InsertAllowRule | src/telegram/commands/allow.ts:167-210 | stale, duplicate, over limit or added, in this order; only the last writes |
| Activation.Tables.ApplyActivationAllow | src/activation/allowButton.ts:54-121 | the transaction with its savepoint and its commit or rollback does what the tap specification says |
| Activation.TapAnswersExactlyWhen | src/activation/allowButton.ts:54-121 | when a tap that commits answers added, duplicate, limit, failed or expired: the rule is added if and only if token and alias are as claimed, the domain is stored and not there yet, the plan allows it and the insert does not fail |
| Activation.TapSpendsOrLeaves | src/activation/allowButton.ts:54-121 | a tap that commits spends a live token whatever becomes of the insert; without one it changes nothing |
| ActivationRuns.NextKeeps | src/activation/notice.ts:190-289 | every statement of a job, a tap, a move or the cleanup keeps row and ledger consistent |
| ActivationRuns.EveryRun | src/db/repos/aliasActivation.ts:179-211 | in every interleaving: no token spent twice, an added rule is the domain authenticated by the job of that claim on an active unchanged alias, at most three claims 24 hours apart, at most one notice per claim |
| ActivationRuns.MarkerIsFinal | src/db/repos/aliasActivation.ts:51-69 | once delivered, the marker never moves and no claim is taken again |
| ActivationRuns.OneClaimPerJob | src/activation/notice.ts:206-228 | no job wins two claims |
| ActivationRuns.OfferedDomainIsProven | src/activation/notice.ts:275-284 | a notice offers its button only for the domain its own job authenticated |
| ActivationRuns.GateExactlyWhen | src/activation/notice.ts:72-76 | a job passes the gate if and only if its alias is active, has not delivered, and is new or its owner never accepted mail |
| ActivationRuns.RevalidatedExactlyWhen | src/activation/notice.ts:107-120 | a job with a claim goes on if and only if alias and claim are unchanged and nothing was delivered; which domain it offers |
| ActivationRuns.UndisturbedTapAdds | src/activation/notice.ts:190-289 | for every active alias and authenticated domain: an undisturbed job sends its notice, and a tap within seven days adds the domain |
| Routing.RepairOfNothing | src/telegram/chatMigration.ts:98-150 | a repair without aliases on the old chat changes no alias and writes no audit row |
| Routing.ReplayIsNoOpExactlyWhen | src/telegram/chatMigration.ts:58-71 | an immediate replay is a no-op if and only if the chat did not migrate to itself, or no alias pointed at it |
| Routing.ChatsAfterRepairExactly | src/telegram/chatMigration.ts:72-150 | after a repair the old chat is off, the new one known by what was told, stored or fetched, and no other chat row differs |
| Routing.Tables.MoveAliasWithCas | src/db/repos/aliasRouting.ts:109-155 | the guarded move changes chat, thread and version and writes its audit row, or changes nothing |
| Routing.Tables.SetAliasTopicWithCas | src/db/repos/aliasRouting.ts:168-183 | the guarded topic change bumps the version and writes no audit row |
| Routing.Tables.SoftDeleteAliasWithCas | src/db/repos/aliasRouting.ts:196-207 | the guarded deletion is terminal and bumps no version |
| Routing.Tables.UpdateWhere | src/db/repos/aliasRouting.ts:82-88 | an update happens exactly when id and version match and the alias is not deleted |
| Routing.Tables.RepointAliasesToChat | src/db/repos/aliases.ts:80-98 | every alias of the old chat, deleted ones too, moves to the new chat with a higher version and is returned once |
| Routing.Tables.RepairChatMigration | src/telegram/chatMigration.ts:98-150 | chat rows, aliases and one audit row per alias, as one step |
| RoutingRuns.ConfirmedRouteIsCurrent | src/db/repos/aliasRouting.ts:10-19 | in every run, a mutation confirmed at a version succeeds only if chat and thread are those read at it |
| RoutingRuns.MoveStartsWhereItRead | src/telegram/menu/moveMenu.ts:194-214 | the chat a successful move records as old, re-read after the confirmation, is the chat the alias was in |
| RoutingRuns.RouteChangesAreVersioned | src/db/repos/aliasRouting.ts:128-183 | every change of chat or thread raises the version by one; deletion is final |
| RoutingRuns.AuditLogChains | src/db/repos/aliasRouting.ts:52-70 | for each alias the audit rows lead from its first chat to its present one without a gap |
| RoutingRuns.ChainsMeet | src/db/repos/aliasRouting.ts:56-70 | consecutive audit rows meet: old chat of one is new chat of the one before |
| RoutingRuns.TrailOfRepair | src/telegram/chatMigration.ts:125-144 | a repair adds exactly one audit row for each alias it moved, none for others |
| RoutingRuns.LateReplayIsNoOp | src/telegram/chatMigration.ts:12-18 | a repair observed again at any later time changes no alias, as long as the old chat stays off |
| RoutingRuns.RepairMovesExactlyThosePointing | src/telegram/chatMigration.ts:98-150 | at any time a repair moves exactly the aliases pointing at the old chat, and is a no-op if and only if there are none |
| LockOrdering.LockOrder | src/db/repos/aliasRouting.ts:72-79 | strictly ascending, exactly the distinct non-null ids |
| LockOrdering.AscendingIsUnique | src/db/repos/aliasRouting.ts:76-79 | these two properties determine the list |
| LockOrdering.NoWaitCycle | src/db/repos/aliasRouting.ts:114-126 | any set of transactions that take ascending keys forms no wait cycle |
| LockOrdering.SomeoneProceeds | src/telegram/chatMigration.ts:110-123 | as long as one is unfinished, some transaction can proceed |
| LockOrdering.PlanAscendsExactlyWhen | src/telegram/chatMigration.ts:43-56 | a chat key followed by user ids ascends if and only if the chat key is below them |
| LockOrdering.GroupPlansAscend | src/telegram/chatMigration.ts:110-123 | group chats, whose keys are negative, are safe |
| LockOrdering.PlanIsSafeExactlyWhen | src/db/repos/aliasRouting.ts:119-125 | a plan never deadlocks with an ascending one if and only if its chat key is below its ids |
| LockOrdering.OwnChatMoveCanDeadlock | src/telegram/menu/moveMenu.ts:194-214 | a move to one's own private chat and another move by the same users can wait for each other |
| Delivery.PersistsOnceOrNot | src/email/pipeline/deliver.ts:288-316 | however many tries of the persistence reached the database, the attempt is recorded exactly once with its status |
| Delivery.EveryRun | src/email/retry.ts:343-612 | for all outcomes and lost writes: attempt numbers exactly 1 to n, at most three counted failures, at most one refund, only when permanently failed |
| Delivery.ClosedIsFinal | src/db/repos/deliveryLogs.ts:172-183 | a permanently failed log is never claimed, sent, recorded or refunded again |
| Delivery.ThirdCountedFailureCloses | src/email/retry.ts:487-517 | a counted failure closes the log if and only if it is the third |
| Delivery.SpentBudgetClosesWithoutSending | src/email/retry.ts:384-397 | a log whose budget is spent is closed and refunded without another send |
| Delivery.UncountedKeepsBudget | src/telegram/errorClassifier.ts:46-60 | in a retry, failures of Telegram or the network and migration aborts consume no budget and keep the log retryable |
| Delivery.FirstUncountedKeepsBudget | src/email/pipeline/deliver.ts:288-420 | the first delivery makes the same promise |
| Delivery.CountsByClass | src/telegram/errorClassifier.ts:46-60 | which failures use budget, class by class |
| Delivery.RetryByClass | src/email/retry.ts:473-527 | in a retry with budget left: flood waits, timeouts, network, server and migration failures leave count and retryability; bad requests, other and unknown classes add one; forbidden and missing chats close the log |
| Delivery.FirstByClass | src/email/pipeline/deliver.ts:283-316 | the same split for the first delivery |
| Delivery.ArrivedTextIsRefundableExactlyWhen | src/email/pipeline/deliver.ts:288-420 | for text that arrived, acknowledged or not: a refund at or after it is possible if and only if the arrival was not acknowledged or the log was handed back, with the guards of status, tries, reset and refund |
| Delivery.RefundableAfterSendExactlyWhen | src/email/retry.ts:487-527 | after any send, in whatever state of the log: refunded now or in some continuation if and only if the step leaves it refundable |
| Delivery.RefundedTextWasRefundable | src/email/retry.ts:487-527 | in every run that ends refunded, each step whose text arrived, acknowledged or not, had left the log refundable |
| Delivery.RefundDespiteDeliveredText | src/email/pipeline/deliver.ts:386-420 | handed back for a migrated chat and then rejected for good, such mail is refunded |
| Delivery.RefundAfterUnconfirmedOutcome | src/email/pipeline/deliver.ts:288-325 | so is mail whose outcome landed without a confirmation |
| Delivery.RefundWithoutAnyRow | src/email/pipeline/deliver.ts:288-325 | so is mail whose outcome never landed, with no row of the accepted send |
| Delivery.LostAcknowledgementIsRefunded | src/email/retry.ts:519-527 | so is mail that arrived with all acknowledgements lost and whose retry is forbidden, with two failure rows |
| Delivery.ThirdCountedFailureIsRefunded | src/email/retry.ts:473-527 | an arrival hidden behind the third counted failure is refunded in its own step |
| DeliveryStore.Store.QueueAllowedInboundEmail | src/email/pipeline/queue.ts:69-196 | the locked decision charges, stores and logs together or not at all |
| DeliveryStore.Store.IncrementUserUsageMonth | src/db/repos/usage.ts:52-88 | an upsert that adds to this user's month only |
| DeliveryStore.Store.DecrementUserUsageMonth | src/db/repos/usage.ts:91-118 | an existing counter is decremented and clamped at zero |
| DeliveryStore.Store.InsertDeliveryAttempt | src/db/repos/deliveryAttempts.ts:8-21 | a second row with the same number is skipped |
| DeliveryStore.Store.CountCountedFailedAttemptsByLog | src/db/repos/deliveryAttempts.ts:38-62 | counts the failed attempts of counted or missing class |
| DeliveryStore.Store.ClaimDeliveryLogForRetry | src/db/repos/deliveryLogs.ts:172-183 | a log is claimed exactly in the non-final statuses |
| DeliveryStore.Store.PersistOutcome | src/email/retry.ts:497-517 | at most three tries, ended by the first confirmed one |
| DeliveryStore.Store.RefundAcceptedEmail | src/billing/usageRefund.ts:20-44 | gives one email back to the month it was charged to, or nothing |
| DeliveryStore.Store.CloseLog | src/email/retry.ts:365-377 | the status first, the refund only if that write was confirmed |
| DeliveryStore.Store.RetryDelivery | src/email/retry.ts:343-612 | a retry leaves log and counters as the specification of a retry says |
| DeliveryStore.Store.DeliverQueuedEmail | src/email/pipeline/deliver.ts:65-503 | a first delivery leaves log and counters as its specification says |
| DeliveryStore.Store.RunRetryWorker | src/email/retry.ts:146-179 | each listed log is claimed and retried once, others untouched |
| Quota.UsageIsConserved | src/db/repos/usage.ts:91-118 | for every user and month in every run: delivered count is accepted less refunded emails, each refunded at most once and only after permanent failure |
| Quota.RefundNeverClamps | src/billing/usageRefund.ts:9-19 | a refund always finds a charge, so the clamp at zero never bites |
| Quota.LimitsHold | src/email/pipeline/queue.ts:85-186 | with a fixed plan no run takes delivered count or stored bytes past the limits |
| Quota.QueuedExactlyWhen | src/email/pipeline/queue.ts:85-175 | mail is queued if and only if it is new and within the limits; otherwise log, charge and storage stay, and a retransmission is neither queued nor charged again |
| NoticeQueue.EveryRun | src/activation/noticeQueue.ts:86-122 | in every run: slots in use equal authentications in flight within the bound, waits only when all are taken, counters equal unsettled jobs and held bytes within bounds, no job settles while its authentication runs |
| NoticeQueue.FirstComeFirstServed | src/activation/noticeQueue.ts:96-121 | slots are granted in the order of the waits, leaving out those given up |
| NoticeQueue.ShutdownIsFinal | src/activation/noticeQueue.ts:295-307 | after shutdown nothing is admitted, nothing that had not started runs, nobody waits for a slot and no authentication begins |
| NoticeQueue.ActivationNoticeQueue.Shutdown | src/activation/noticeQueue.ts:295-307 | the shutdown signal ends every wait and every waiting for an authentication in flight |
| NoticeQueue.Slots.Acquire | src/activation/noticeQueue.ts:96-116 | granted, refused or put at the end of the line |
| NoticeQueue.Slots.Abandon | src/activation/noticeQueue.ts:107-111 | an abandoned wait leaves the line, the others keep their order |
| NoticeQueue.Slots.Release | src/activation/noticeQueue.ts:118-121 | the slot goes to the first in line |
| NoticeQueue.ActivationNoticeQueue.Admit | src/activation/noticeQueue.ts:244-281 | admission within the bounds, mail held only with a sender and only if it fits |
| NoticeQueue.ActivationNoticeQueue.StopWaiting | src/activation/noticeQueue.ts:178-184 | a job that stops waiting leaves an authentication in flight its slot |
| NoticeQueue.ActivationNoticeQueue.AuthenticationSettled | src/activation/noticeQueue.ts:152-163 | a settled authentication hands its slot to the first in line, who authenticates next |
| NoticeQueue.ActivationNoticeQueue.SettleJob | src/activation/noticeQueue.ts:269-275 | counters are released when runner and authentication are over |
| Shutdown.EveryRun | src/startup/shutdown.ts:54-141 | in every ordering: at most one exit, the database closes only after all work ended uncut, exit 0 means everything finished, the reported pending steps are exactly the unfinished ones |
| Shutdown.NothingAfterExit | src/startup/shutdown.ts:101-133 | after the exit nothing is torn down any more |
| Shutdown.DeadlineEndsIt | src/startup/shutdown.ts:70-82 | a shutdown still going at the deadline exits with 1 |
| Shutdown.SettledExactlyWhen | src/startup/shutdown.ts:64-67 | a failed step counts as done for the bot and the drain only, and a failed drain is remembered |
| Shutdown.ResumedExactlyWhen | src/startup/shutdown.ts:101-139 | stage by stage: the handler waits, goes on exactly when all it awaits is done, and exits with 1 exactly when one of it failed or the drain was cut |
| Shutdown.NeverStuck | src/startup/shutdown.ts:54-141 | a started shutdown with nothing pending goes on |
| Shutdown.CleanRunExitsWithZero | src/startup/shutdown.ts:54-141 | when nothing fails and no deadline passes, no ordering exits with 1 |
| Shutdown.Handler.HandleSignal | src/startup/shutdown.ts:54-100 | the first signal starts all steps, an error in the first one exits |
| Shutdown.Handler.Settled | src/startup/shutdown.ts:64-67 | a settled step leaves the pending set; bot failures are logged, a failed drain is remembered |
| Shutdown.Handler.DeadlineExceeded | src/startup/shutdown.ts:70-82 | the deadline exits once with 1, unless the process is already ending |
| Shutdown.Handler.Continue | src/startup/shutdown.ts:101-139 | what happens after each await, unless the process is already ending |
| InFlight.InFlightTracker.Begin | src/utils/inFlight.ts:55-59 | one more run of this key |
| InFlight.InFlightTracker.Finish | src/utils/inFlight.ts:61-79 | one run fewer; all waiters are released exactly when nothing runs any more |
| InFlight.InFlightTracker.Drain | src/utils/inFlight.ts:25-47 | done at once exactly when nothing runs |
| InFlight.InFlightTracker.TimeOut | src/utils/inFlight.ts:29-37 | a wait that times out leaves, the others stay in order |
| InFlight.InFlightTracker.IsActive | src/utils/inFlight.ts:51-53 | a key is active exactly while a run of it is in flight |
| Sender.NeverBoth | src/telegram/sender.ts:75-111 | whatever Telegram answers or loses, rich and classic form are never both accepted, and a reported success was accepted |
| Sender.TriesExactlyWhen | src/telegram/sender.ts:154-193 | a send stops at the first of three calls that succeeds or is answered for good, told by code and class, or at the third |
| Sender.FormsTriedExactlyWhen | src/telegram/sender.ts:75-111 | when each form is tried and whose answer is reported: the classic form if the rich one is not tried or is refused at the first call for its form, by 404 or by a 400 of class bad request; when the latch is set |
| Sender.RefusedAtOnceIsNotAccepted | src/telegram/sender.ts:290-298 | a send permanently refused on its first call was not accepted |
| Sender.FailureMayHideArrival | src/telegram/sender.ts:154-193 | for every error class there are replies after which the failed send hides an arrival |
| Sender.RefusalHidesNoArrival | src/telegram/sender.ts:164-193 | a permanent refusal by Telegram itself at the first call hides none |
| Sender.SendWithRetries | src/telegram/sender.ts:154-193 | calls until success, permanent failure or the third try, and no further |
| Sender.MessageSender.SendTelegramMessage | src/telegram/sender.ts:75-111 | transports, fallback and the capability latch as specified |
| Sender.PickPartitions | src/telegram/sender.ts:211-284 | sent and failed photos together are exactly the photos |
| Sender.FailureIsReported | src/telegram/sender.ts:248-284 | a failure is reported exactly if a photo failed; after a migration nothing more is sent |
| Sender.PhotoSentExactlyWhen | src/telegram/sender.ts:211-284 | photo i is sent if and only if group i / 10 is acknowledged and no group before it met a migration |
| Sender.GroupTriedExactlyWhen | src/telegram/sender.ts:211-284 | a group of ten is tried if and only if it holds a photo and no group before it met a migration |
| Sender.ReportedFailure | src/telegram/sender.ts:248-284 | the failure reported is that of a migration, or else of the first group that failed |
| Sender.SendTelegramPhotos | src/telegram/sender.ts:195-284 | the chunk loop puts every photo into exactly one of sent and failed, in order, also after a migration |
| Impersonation.LeetVariants | src/abuse/aliasImpersonationGuard.ts:129-156 | up to five ones, exactly all readings of the mapped base, each once, 2 to the n of them; beyond, all i and all l |
| Impersonation.ReadingsDecipher | src/abuse/aliasImpersonationGuard.ts:113-156 | the readings of a name are exactly the words its characters stand for: 0 for o, 3 for e, 4 and @ for a, 5 for s, 1 for i or l |
| Impersonation.SpelledWordsAreRefused | src/abuse/aliasImpersonationGuard.ts:206-218 | a name with at most five ones that spells a blocked word this way is refused |
| Impersonation.WriteVariant | src/abuse/aliasImpersonationGuard.ts:148-153 | the inner loop writes the reading of the mask |
| Impersonation.MatchesPrefixAtBoundary | src/abuse/aliasImpersonationGuard.ts:171-184 | the one-pass matcher agrees with the definition: letters spell the prefix once separators are dropped, then a separator, a digit or the end |
| Impersonation.MatchesAnyBlocklist | src/abuse/aliasImpersonationGuard.ts:186-204 | blocked exactly by an exact name, a prefix, a long brand or a bounded short brand |
| Impersonation.BlockedExactlyWhen | src/abuse/aliasImpersonationGuard.ts:158-204 | when a name is blocked, in terms of its characters: reserved name, long brand, prefix before a mark, digit or end, short brand between such or laid open by leaving marks out |
| Impersonation.IsImpersonation | src/abuse/aliasImpersonationGuard.ts:206-218 | refused exactly when the name or one of its readings is blocked, up to five ones; beyond, when the name, all i or all l is |
| Impersonation.ExactUpToFiveOnes | src/abuse/aliasImpersonationGuard.ts:120-156 | for every name: the guard agrees with looking at all readings under every block list if and only if the name has at most five ones |
| Impersonation.MixedBrandSlipsThrough | src/abuse/aliasImpersonationGuard.ts:134-138 | a legal name with six ones whose reading holds a blocked brand is accepted |
| RateLimit.SweepsChangeNothing | src/utils/rateLimit.ts:12-40 | with sweeps at any times, the verdicts are those of a limiter that remembers everything: refused exactly if the window is full |
| RateLimit.NoWindowOverflows | src/utils/rateLimit.ts:12-25 | no window of the limiter's length holds more than max accepted checks of a key |
| RateLimit.RateLimiter.Check | src/utils/rateLimit.ts:12-25 | drops what expired, then accepts below max |
| RateLimit.RateLimiter.Sweep | src/utils/rateLimit.ts:31-38 | the loop keeps a key, with its whole list, exactly if one of its timestamps is younger than the cutoff |

## Left out

- Strings are sequences of Unicode scalar values, not UTF-16 units: lengths in the trimmer's and the label's limits differ for text outside the basic plane, and lone surrogates have no counterpart.
- Parsing HTML, URLs and attribute values: the DOM tree is given, element names are already lower-cased, and the readers of hrefs, numbers, font weights and letters are arbitrary functions; an href that holds a newline, which the source's filter refuses, would be quoted differently.
- A list item carries its number as an attribute of the node instead of looking at its parent; align and valign values are already trimmed and lower-cased.
- HtmlShown.ParseBlocksShown: of a tree cut short it is only proved that nothing is added or shown twice (HtmlCutShort.ParseBlocksDrawn), not which part is kept.
- HtmlClosedTags.TagsClosedExactlyWhen: for a tree cut short the exact condition is on its blocks (HtmlClosedTags.ClassicDocumentClosed), and on the tree only sufficient (HtmlOrdinary.OrdinaryDocumentsAreClosed).
- HtmlNormalize.NormalizeClassicAlike: the regular expressions of the source also merge spaces inside attribute values, such as a mailto address with two spaces; attribute values are kept whole here.
- HtmlNormalize.NormalizeRichAlike: the same holds for the rich form.
- The plain-text renderer, and the lower bound on the classic length after re-sanitising: easier members or no clean invariant.
- HtmlParser.IsEntireCellStrong: how the font-weight declaration of a style is parsed is an argument.
- Master-key parsing and the configuration of providers; base64 of wrapped keys is the identity, and an empty wrapped key counts as missing.
- Backfill.Storage.BackfillStoredEncryption: assumes that each file is referenced by one row (its precondition); attachments and raw emails are one list, pending files and metadata columns are not part of this model, and errors other than a missing file appear as cuts.
- KeyRotation: one stored file; the samples the startup check decrypts, and pending files and metadata columns, are not part of this model.
- Activation: tokens are fresh (an assumption of every run), the alias row is never hard-deleted, and the job runner appears as its statements in order rather than as one method, since others interleave between them.
- ActivationRuns.EveryRun: a notice counts when its send is tried, whether or not Telegram accepted it.
- RoutingRuns.AuditLogChains: threads do not chain, since topic changes write no audit row by design; a chat row that was never registered cannot be deactivated, so LateReplayIsNoOp asks for a registered old chat.
- LockOrdering: row locks inside one update, and statement timeouts.
- Delivery: one process and one delivery per log at a time, the first delivery before any retry; the cleanup runs between deliveries, not during one; classifying error texts is given.
- Quota: the charged month is the month the email was received in; the count behind the hourly cap is given; egress, alias and allow-rule limits follow the same pattern and would only add easy members.
- The retry cron's overlap guard and the recovery of pending raw files: plumbing around the modelled queueing and delivery.
- NoticeQueue: timers and clocks appear as events that may happen at any time; a job authenticates at most once, as its only runner does.
- Shutdown: an early rejection of the notices step before it is awaited, which the source's step never does.
- Sender: Telegram's own refusal (a structured, non-transient error) is assumed to be a real one; a photo chunk that failed may have been accepted.
- Impersonation: the block lists are an argument; the names in them are not part of this model.
- RateLimit: destroying the limiter.
- HTTP routes, bot handlers, menus, translations, metrics, logging, Stripe and manual billing, caches and uptime alerts.
