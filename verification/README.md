# Cocos Engine: models of the adapters and the audio engine, with proofs

The web adapters that Cocos Engine bundles carry code of their own that the rest of the engine relies on: codecs for
the `Buffer` class, an XML parser and printer with a document tree, and the run-to-completion machinery of
`process.nextTick`, of a promise polyfill and of `EventTarget`. The C++ audio engine adds a pool of worker threads and
three indexes over the sounds that play. This project models these parts in Dafny, in the form in which the source has
them, and proves what they promise.

| file | part | form |
|---|---|---|
| `XmlText`, `XmlTree`, `XmlScanner`, `XmlParser` | escaping, serializer and `normalize`, start-tag scanner, parser with its stack and tree builder | machines of turns and passes, methods with the loops, values for trees |
| `XmlRoundTrip`, `XmlScopes`, `XmlNamespaces`, `XmlMalformed` | parser and printer undo each other; namespace scoping; sources that are not well-formed | theorems about the above; the shared maps as objects |
| `DomTree` | child lists: sibling pointers in both directions, mirrored in an array | heap nodes edited in place |
| `DomStale`, `DomAncestors`, `DomNormalize` | inserting a node that was removed before; cycles of parents; `normalize` in place | the same nodes, read off as tables of pointers |
| `PromiseMachine`, `PromiseRuns`, `PromisePolyfill` | the functions `o`, `r`, `i`, `f` and `u` of the polyfill | a machine of atomic calls, theorems about its runs, and an object that does the same in place |
| `NextTick` | the `process.nextTick` queue | a machine of events, and the globals as an object |
| `EventTarget` | listener lists | heap nodes relinked in place |
| `Utf8`, `IntCodec`, `Base64`, `Btoa`, `BufferSearch` | the buffer's codecs and searches | loops over arrays and strings, against reference definitions |
| `ThreadPool` | the audio engine's worker threads | interleaved steps, and the pool as an object |
| `AudioIndex` | sounds by id, by path and by profile | a machine of operations, and the engine as an object |
| `Arithmetic`, `Common` | quotients and remainders, result types | helpers |

What the code takes from outside becomes a parameter: the entity table, `toLowerCase`, the default namespaces and the
reader of instructions and document types for the parser; what callbacks, listeners and the backend do, as the
arguments of the events; the clock and the file system, as fields of a request. A record of history, where a statement
needs one, is a field of the state (the tasks ever added, the `then` calls ever made) or a ghost field of the object.

Where the code does less than it seems to, the exact condition is proved, in both directions: the parser gives back a
tree exactly if no text siblings are adjacent in it; the UTF-8 encoder drops a character exactly if the string ends in
two lead surrogates; adoption of promises stays free of cycles exactly if the chain of the adopted one does not lead
back; the open elements hold the maps that their attribute nodes declare exactly if no declaration is repeated with
another value; a removed node that is put in again leaves exactly the intended lists, with nobody lost, exactly if the
pointers it kept heal; an insertion keeps the document a tree exactly if the new child is not the parent or above it;
a base64 text is given back exactly if it was canonical; the way to the background and back restores the sounds
exactly if no paused sound was still to be resumed.

Bits are written as arithmetic: shifts and masks are quotients and remainders by powers of two, and 32-bit overflow is
spelled out where it can occur.

## Model

| member | source | states |
|---|---|---|
| XmlRoundTrip.RoundTrip | adapter/nodejs/web-adapter.js:7081-7246 | Parsing the serialized form of a namespace-free element gives back that very element, as the only child of the document and with nothing reported, if and only if it has no two adjacent text nodes |
| XmlRoundTrip.ParsePrint | adapter/nodejs/web-adapter.js:6513-6647 | For every namespace-free element that can be written down, adjacent text included, parsing what the serializer wrote gives the normalized element, whatever text, attribute values, CDATA and comments it holds |
| XmlRoundTrip.PrintInjective | adapter/nodejs/web-adapter.js:6513-6647 | The serializer writes two such elements alike exactly when they have the same normal form: nothing but the cutting of text into nodes is lost |
| XmlRoundTrip.TextRun | adapter/nodejs/web-adapter.js:7105-7113 | Escaped text before a `<` is read as one text node with the original characters, and nothing else in the parser state changes |
| XmlRoundTrip.CommentRun | adapter/nodejs/web-adapter.js:7561-7580 | A comment without `-->` is read back whole: its own dashes next to the terminator do not end it early |
| XmlRoundTrip.CDataRun | adapter/nodejs/web-adapter.js:7581-7587 | A CDATA section without `]]>` is read back whole, unescaped, as a CDATA node |
| XmlRoundTrip.ElementRun | adapter/nodejs/web-adapter.js:7148-7231 | Reading a printed element leaves the open elements as they were and adds exactly that element; the memory of end tag positions stays right |
| XmlRoundTrip.KidsRun | adapter/nodejs/web-adapter.js:7133-7245 | Reading a printed child list adds exactly those children, in order, up to the end tag |
| XmlRoundTrip.NotSelfClosed | adapter/nodejs/web-adapter.js:7540-7554 | `fixSelfClosed` says an element is unclosed never when a later end tag has its name, and its memory stays true |
| XmlText.UnescapeEscape | adapter/nodejs/web-adapter.js:5989-5991 | What the printer escapes, in text or in an attribute value, the parser replaces by the same characters, with no unknown entity |
| XmlText.StandardTable | adapter/nodejs/web-adapter.js:5334-5340 | The table of the parser has what that needs |
| XmlText.Escape | adapter/nodejs/web-adapter.js:6610-6613 | An escaped string is never shorter and holds no `<`, nor a `"` when escaped for an attribute; `XmlText.EscapeOne` and `XmlText.EscapeFixed` say what it is |
| XmlText.EscapeOne | adapter/nodejs/web-adapter.js:6610-6613 | Character by character: `<` becomes `&lt;`, `&` becomes `&amp;`, `"` becomes `&quot;` in an attribute value only, and every other character stands as it is |
| XmlText.EscapeFixed | adapter/nodejs/web-adapter.js:6610-6613 | A string is written as it is if and only if it holds no `<`, no `&` and, in an attribute value, no `"` |
| XmlText.EscapeConcat | adapter/nodejs/web-adapter.js:6610-6613 | The escaped form of two strings joined is that of the first followed by that of the second |
| XmlText.RefLenIs | adapter/nodejs/web-adapter.js:7108 | Where a match of `&#?\w+;` starts, the search finds it whole, and it finds nothing else |
| XmlText.UnescapeRef | adapter/nodejs/web-adapter.js:7094-7104 | Such a match is replaced by what the table has for it, and stands for itself, with one report, if the table has nothing |
| XmlText.UnescapeOther | adapter/nodejs/web-adapter.js:7105-7110 | Where no match starts, the character stands for itself |
| XmlScanner.ScanOpen | adapter/nodejs/web-adapter.js:7257-7434 | The start-tag scanner reads a printed start tag back, qualified names and repeated attributes included: the name, every attribute in order with its value, whether the element is empty, where the tag ends, and no report |
| XmlScanner.ScanAttrs | adapter/nodejs/web-adapter.js:7257-7434 | The same for any list of attributes with qualified names, from the point after the tag name |
| XmlScanner.ScanTag | adapter/nodejs/web-adapter.js:7257-7434 | Every start tag, however it is written, is scanned to its name, its attributes in order with their values, references replaced, and whether it is closed: values in `"` or in an apostrophe, any white space before a name, around `=` and before `>` or `/>`; the reports are the unknown references |
| XmlScanner.ScanUnquoted | adapter/nodejs/web-adapter.js:7344-7390 | A value without quotation marks is taken up to white space or the end of the tag, with one report more |
| XmlScanner.ScanBare | adapter/nodejs/web-adapter.js:7344-7365 | An attribute without a value at the end of a tag has its name for a value, with a report |
| XmlScanner.Turn | adapter/nodejs/web-adapter.js:7262-7433 | Each turn of the scanner that goes on moves strictly forward inside the source; a scan that ends does so at the position it looked at |
| XmlScanner.ParseElementStartPart | adapter/nodejs/web-adapter.js:7257-7434 | The scanner loop ends on every source, and gives what the machine of its turns gives |
| XmlParser.Pass | adapter/nodejs/web-adapter.js:7133-7245 | A pass of the main loop either returns or strictly raises `start`, on every source, malformed ones included |
| XmlParser.Run | adapter/nodejs/web-adapter.js:7081-7246 | From every state the main loop ends |
| XmlParser.ParseFromString | adapter/nodejs/web-adapter.js:5326-5356 | The parsing loop gives the outcome of the machine that the theorems are about, and ends |
| XmlTree.SerializeToString | adapter/nodejs/web-adapter.js:6513-6647 | The recursive serializer appends the printed form of the node to its buffer and changes nothing before it |
| XmlTree.PrintText | adapter/nodejs/web-adapter.js:6599-6613 | An element with a text is written as its start tag, the text as it is if it holds no `<` and no `&`, quotation marks included, and its end tag |
| XmlTree.PrintEmpty | adapter/nodejs/web-adapter.js:6549-6610 | An empty element with one attribute is written as the name, one space, the name and the quoted value of the attribute, and `/>` |
| XmlTree.NormalizeIsNormal | adapter/nodejs/web-adapter.js:5931-5943 | After `normalize` no two text siblings are adjacent, anywhere in the subtree |
| XmlTree.NormalizeKeeps | adapter/nodejs/web-adapter.js:6741-6757 | `normalize` keeps the text content and the printed form |
| XmlTree.NormalizeListKeeps | adapter/nodejs/web-adapter.js:5931-5943 | In every child list `normalize` keeps the other nodes, in their order, each normalized, and the text content |
| XmlTree.NormalizeFixed | adapter/nodejs/web-adapter.js:5931-5943 | `normalize` leaves a tree alone exactly if no text siblings are adjacent in it |
| XmlScopes.AlwaysScoped | adapter/nodejs/web-adapter.js:7128-7225 | After any number of passes over any source, malformed ones included: every open element has the name and the attributes of a start tag of the source; what it declares is what its `xmlns` attributes declare; its map is the default map overridden by the declarations of the open elements around it and its own, outermost first; its node has in that map the namespace of its prefix, and without a prefix the default namespace; and of its attribute nodes those with a prefix have that of the prefix, declarations that of declarations, and all others none (Namespaces in XML 1.0, sections 6.1 and 6.2) |
| XmlScopes.ElementUriIs | adapter/nodejs/web-adapter.js:7491-7501 | An element name with a prefix has the namespace that the map has for the prefix, one without the namespace that it has for the empty one, and none if there is no entry |
| XmlScopes.AttrUriIs | adapter/nodejs/web-adapter.js:7444-7489 | `xmlns` and names that start with `xmlns:` have the namespace of declarations, other names with a prefix that of the prefix, and names without a prefix none |
| XmlScopes.PassKeepsScopes | adapter/nodejs/web-adapter.js:7133-7245 | One pass keeps that: no attribute and no declaration of a tag is lost, none is invented, and none gets out of its element, to a sibling or to a parent |
| XmlScopes.OpenKeepsScopes | adapter/nodejs/web-adapter.js:7438-7517 | Opening an element pushes the name and the attributes of its tag, if it is not closed at once, and scopes it, its node and its attribute nodes by the map of its parent and the declarations among its own attributes |
| XmlNamespaces.DocumentScoped | adapter/nodejs/web-adapter.js:7081-7246 | In every document that the parser returns, well-formed or not, every element is that of a start tag of the source, with all its attributes set; every element has the namespace of its prefix, or the default namespace, and every attribute node that of its prefix or none, in the map that the attribute nodes around it declare, if no start tag that the parser reads repeats a declaration with another value |
| XmlNamespaces.ParseAlone | adapter/nodejs/web-adapter.js:7081-7246 | The source that consists of one printed tag, with any qualified names and any values, is parsed into the element with its own declarations in scope, without a report |
| XmlNamespaces.DefaultInDocument | adapter/nodejs/web-adapter.js:7491-7501 | An element `a` that declares a default namespace is parsed into it, and its attribute `x` into none |
| XmlNamespaces.AlwaysAgree | adapter/nodejs/web-adapter.js:7128-7225 | After any number of passes over any source, the open elements hold the maps that their attribute nodes declare, if and only if none of them repeats a declaration with another value |
| XmlNamespaces.RepeatedInDocument | adapter/nodejs/web-adapter.js:7443-7473 | A source where they do not agree: `p:a` with two declarations of `p` is parsed without a report into the namespace of the first, while its attribute node has the second |
| XmlNamespaces.DeclarationsAgree | adapter/nodejs/web-adapter.js:7443-7473 | The map that an element holds declares what its attribute nodes declare, if and only if every declaration among its attributes has the same value where it stands first and where it stands last |
| XmlNamespaces.RepeatedDeclaration | adapter/nodejs/web-adapter.js:7443-7473 | The attribute list that shows the difference: of two declarations of `p` on one element the map takes the first, and the attribute node keeps the second |
| XmlNamespaces.DeclarationsAre | adapter/nodejs/web-adapter.js:7443-7473 | For every prefix the loop from the end finds the value of the first attribute that declares it |
| XmlNamespaces.SetAllValue | adapter/nodejs/web-adapter.js:5417-5427 | For every name the attribute node keeps the value of the last attribute with that name |
| XmlScopes.EndTagKeepsScopes | adapter/nodejs/web-adapter.js:7149-7182 | End tags, matching or not, leave the scopes of the elements that stay open alone |
| XmlScopes.DeclareNamespaces | adapter/nodejs/web-adapter.js:7440-7473 | The map object handed in is never written to; it is handed on itself exactly if the element declares nothing, and is copied otherwise; a later attribute yields to an earlier one with the same prefix |
| XmlMalformed.TextAtEnd | adapter/nodejs/web-adapter.js:7136-7143 | From any state, what follows the last tag is a text at the end of the document, unless it is white space |
| XmlMalformed.StillOpen | adapter/nodejs/web-adapter.js:5412-5433 | Elements that are still open at the end of the source stay in the document, each as the last child of the one around it, with all their children |
| XmlMalformed.NoTags | adapter/nodejs/web-adapter.js:7136-7143 | A source without `<` is one text, or nothing if it is white space |
| XmlMalformed.TextKept | adapter/nodejs/web-adapter.js:7105-7113 | Text before a tag is added with its references replaced, but with no more characters than it had in the source, and every unknown reference is reported; before the first element it is dropped unless it is white space |
| XmlMalformed.LooseBracket | adapter/nodejs/web-adapter.js:7239-7244 | A `<` from which no tag can be read becomes text, after the first element, and the parser goes on behind it |
| XmlMalformed.RejectedTag | adapter/nodejs/web-adapter.js:7232-7238 | A start tag that the scanner rejects opens no element, changes no node and is reported |
| XmlMalformed.EndTagCloses | adapter/nodejs/web-adapter.js:7148-7182 | An end tag closes the current element exactly if its name is that of the element, or would be with both in lower case; any other leaves the open elements and the tree as they are; only a difference in case is reported |
| XmlMalformed.EndTagUnended | adapter/nodejs/web-adapter.js:7152-7157 | An end tag without `>` is reported, and its name ends at the first white space or `<` |
| XmlMalformed.EndTagInterrupted | adapter/nodejs/web-adapter.js:7157-7161 | The same for an end tag in which a `<` follows white space before the `>` |
| XmlMalformed.UnclosedExactly | adapter/nodejs/web-adapter.js:7540-7554 | At the first start tag of a name, the element is taken as closed if and only if no end tag of that name, complete or not, occurs from there on |
| XmlMalformed.UnclosedLater | adapter/nodejs/web-adapter.js:7540-7554 | Later start tags of the name are judged by the end tags of the kind that was found at the first one, complete or not, as the position is looked up once |
| XmlMalformed.UnclosedComment | adapter/nodejs/web-adapter.js:7561-7575 | A comment that is not ended adds no node and is reported |
| XmlMalformed.OneDash | adapter/nodejs/web-adapter.js:7576-7579 | `<!-` without a second dash adds no node and is not reported |
| XmlMalformed.UnclosedCData | adapter/nodejs/web-adapter.js:7581-7587 | A CDATA section that is not ended adds no node, and is not reported |
| DomTree.RemoveChild | adapter/nodejs/web-adapter.js:6056-6071 | Removing a child keeps every child list of the world linked both ways and mirrored in `childNodes`, and takes exactly that child out |
| DomTree.InsertBefore | adapter/nodejs/web-adapter.js:6075-6112 | Inserting before a child: the new child leaves whatever list it was in and stands before the reference node; all lists stay linked, nobody else changes parents |
| DomTree.InsertFragment | adapter/nodejs/web-adapter.js:6075-6112 | Inserting a fragment moves all its children, in order, to that place and leaves the fragment empty |
| DomTree.AppendChild | adapter/nodejs/web-adapter.js:6113-6132 | Appending moves the new child to the end, although the array is extended and not rebuilt |
| DomTree.ReplaceChild | adapter/nodejs/web-adapter.js:5911-5917 | `replaceChild`, an insertion and a removal, puts the new child exactly in the place of the old one |
| DomTree.Unlink | adapter/nodejs/web-adapter.js:6056-6071 | The pointer writes of `_removeChild`, at either end of the list or inside it, leave a list that is linked forward and backward |
| DomTree.Splice | adapter/nodejs/web-adapter.js:6087-6107 | The pointer writes of `_insertBefore` link a whole run of nodes into a list at any place |
| DomTree.LinkLast | adapter/nodejs/web-adapter.js:6120-6129 | The pointer writes of `_appendSingleChild` link a node in at the end |
| DomTree.Refresh | adapter/nodejs/web-adapter.js:6036-6043 | Following `nextSibling` from `firstChild` rebuilds the array as the list of children |
| DomStale.InsertRemoved | adapter/nodejs/web-adapter.js:6056-6112 | `insertBefore` with a new child that was removed before, and so still has its old parent and its old neighbours, through all of its steps: the removal from that parent and its array, the search for the place, the links, the array. When both loops end, and all pointers that are left, are stated for every case. The pointers and arrays give exactly the intended lists, the new child in its place and nobody lost, if and only if the kept pointers heal: the pointers under the old parent still end once the neighbours are tied together, the place is found rightly, and each of the two ties is overwritten, was there already or is made at a node in no list |
| DomStale.LoseChild | adapter/nodejs/web-adapter.js:6056-6112 | Where they do not heal, other lists can be left: of two children both are removed, the first is put in again, then the second; pointers and arrays are well formed, with the second as the only child, and the first is lost |
| DomStale.InsertAtItself | adapter/nodejs/web-adapter.js:6075-6107 | `insertBefore(c, c)` for a child: it is tied to itself, and the loop that rebuilds the array never ends |
| DomStale.AppendRemoved | adapter/nodejs/web-adapter.js:6113-6132 | The same for `appendChild`, which extends the array: for exactly the intended lists, the removal must besides have changed no pointer of the list of the new parent, if that is the old one |
| DomStale.OneDirection | adapter/nodejs/web-adapter.js:6060-6098 | What the pointers of one direction come to, for any lists: all lists are their chains after the removal and the linking, if and only if the removal is harmless |
| DomStale.RemovalEnds | adapter/nodejs/web-adapter.js:6036-6043 | The loop that rebuilds the array after such a removal ends, if and only if the list of the old parent does not run through the old neighbour, or the chain behind it ends without passing it |
| DomStale.PutFirst | adapter/nodejs/web-adapter.js:6056-6112 | Of three children the last two are removed and the middle one is put in front of the first: the pointers are not those of the two |
| DomStale.PutLast | adapter/nodejs/web-adapter.js:6056-6112 | Put in at the end of the same list by `insertBefore`, it is in its place and all pointers are right |
| DomStale.PutAppended | adapter/nodejs/web-adapter.js:6113-6132 | Appended to the same list, it leaves pointers and array that do not both give the two |
| DomAncestors.InsertBelow | adapter/nodejs/web-adapter.js:6075-6112 | An insertion leaves every chain of parents finite, if and only if the new child is neither the new parent nor one of its ancestors; nothing in the code looks |
| DomAncestors.AppendBelow | adapter/nodejs/web-adapter.js:6113-6132 | The same for appending |
| DomAncestors.AppendToOwnChild | adapter/nodejs/web-adapter.js:6113-6132 | A root appended to its own child: the call goes through, and the two are each other's parents |
| DomNormalize.Normalize | adapter/nodejs/web-adapter.js:5931-5943 | `normalize` on the pointers, its loop, its removals and its calls of itself: it ends, keeps every list of the world well formed, leaves no text next to text anywhere below the node, changes no list that had none nor any above, and every node but the text nodes reads as before: the same nodes in the same order, with the same characters between them |
| DomNormalize.MergeKeeps | adapter/nodejs/web-adapter.js:5935-5937 | Merging one text node into the one before it keeps the reading of every other node of the world |
| DomNormalize.AcyclicRanks | adapter/nodejs/web-adapter.js:5931-5943 | The ranks by which it ends exist wherever no node is its own ancestor |
| DomTree.ReplacedIs | adapter/nodejs/web-adapter.js:5911-5917 | Inserting before a node and then removing that node is replacing it |
| DomTree.OneParent | adapter/nodejs/web-adapter.js:6075-6112 | In a well-formed world no node is in two child lists |
| PromiseMachine.RunKeeps | adapter/nodejs/web-adapter.js:5132-5191 | Over every run of calls the invariant holds, settled promises keep their status for ever, jobs are only added, and the `then` calls on record are those that the run makes, in order |
| PromiseMachine.RunInOrder | adapter/nodejs/web-adapter.js:5132-5191 | Of the `then` calls that a run makes on one promise, none is scheduled while the end of its adoption chain is pending, and otherwise all of them, in the order they were made |
| PromiseMachine.DoKeeps | adapter/nodejs/web-adapter.js:5132-5191 | A call changes the status of no promise that has left the pending state (Promises/A+, section 2.1) |
| PromiseMachine.ScheduledOnce | adapter/nodejs/web-adapter.js:5137-5178 | In every reachable state each `then` call has been scheduled at most once (Promises/A+, sections 2.2.2 and 2.2.3) |
| PromiseMachine.ScheduledRegistered | adapter/nodejs/web-adapter.js:5137-5151 | Only `then` calls that were made are ever scheduled |
| PromiseMachine.ScheduledInOrder | adapter/nodejs/web-adapter.js:5176-5177 | The `then` calls on a promise that are scheduled are none while the end of its adoption chain is pending, and afterwards all of them in the order they were made, even when adoption moved them (section 2.2.6) |
| PromiseMachine.JobSettled | adapter/nodejs/web-adapter.js:5138-5150 | A scheduled `then` call has a fulfilled or rejected promise at the end of the adoption chain it was made on |
| PromiseMachine.AdoptionStaysGrounded | adapter/nodejs/web-adapter.js:5138 | A pending promise can adopt another and the search for the end of the chain still end, if and only if the chain of the other does not lead back to it; only the direct case is detected (section 2.3.1) |
| PromiseMachine.CycleReachable | adapter/nodejs/web-adapter.js:5152-5167 | A run that leads there: the first of two promises is resolved with the second, after which resolving the second with the first would close a cycle |
| PromiseMachine.JobOutcome | adapter/nodejs/web-adapter.js:5139-5150 | When a job begins: with a callback for the outcome, the callback starts and nothing is settled yet (Promises/A+, sections 2.2.2 and 2.2.3); without one, none starts, and the promise that `then` returned, and no other, gets the value or the reason of the promise at the end of the chain (sections 2.2.7.3 and 2.2.7.4) |
| PromiseMachine.PairOutcome | adapter/nodejs/web-adapter.js:5179-5192 | The first call of either function of a pair settles or resolves its promise, and no other; every further call of the two changes nothing (section 2.3.3.3.3) |
| PromiseRuns.NeverForgotten | adapter/nodejs/web-adapter.js:5137-5192 | In every reachable state a pending promise still has somebody to settle it: a pair of functions that is not used up, a `then` call in the list of a pending promise, or a job that has not begun or whose callback still runs |
| PromiseRuns.CallbacksRun | adapter/nodejs/web-adapter.js:5139-5150 | In every run a job that has begun has its callback running, or has had it return or throw, if and only if the promise at the end of its chain is fulfilled and `onFulfilled` is a function, or rejected and `onRejected` is (sections 2.2.2 and 2.2.3) |
| PromiseRuns.EndsOnce | adapter/nodejs/web-adapter.js:5139-5150 | In no run does a callback end twice |
| PromiseRuns.SettleChecks | adapter/nodejs/web-adapter.js:5172-5175 | A rejection is scheduled to be checked if and only if no `then` call was waiting |
| PromiseRuns.ReportedExactly | adapter/nodejs/web-adapter.js:5172-5175 | In every run a rejection is reported if and only if its check finds that no `then` call was handed over to the promise by then, and with the reason of that promise |
| PromiseMachine.CallbackOutcome | adapter/nodejs/web-adapter.js:5144-5150 | What a callback returns resolves that promise and no other, and what it throws rejects it (sections 2.2.7.1 and 2.2.7.2) |
| PromiseMachine.ResolveOutcome | adapter/nodejs/web-adapter.js:5152-5173 | The branches of the resolution: a promise adopts a promise, is rejected with the type error if it is itself or if reading `then` throws, hands a thenable one resolver, and is fulfilled with anything else; no other promise changes its status |
| PromiseMachine.DoInv | adapter/nodejs/web-adapter.js:5132-5191 | Every call keeps the invariant: one right to settle for each pending promise, none for the others, waiting lists and jobs in order |
| PromiseMachine.SettleInv | adapter/nodejs/web-adapter.js:5164-5178 | Settling or adopting keeps the invariant, moves the waiting `then` calls to the end of the new chain or schedules them, and changes no other status |
| PromiseMachine.HandleAllIs | adapter/nodejs/web-adapter.js:5176 | The loop of `f` hands the whole list over to the end of the chain, in order |
| PromisePolyfill.Polyfill.HandleDeferred | adapter/nodejs/web-adapter.js:5137-5151 | `o`, with its loop along the chain, changes the store as the machine says, and ends |
| PromisePolyfill.Polyfill.RunFinale | adapter/nodejs/web-adapter.js:5172-5178 | `f` on the store in place |
| PromisePolyfill.Polyfill.ResolvePromise | adapter/nodejs/web-adapter.js:5152-5168 | `r` on the store in place, in all its branches: itself, another promise, a thenable, a throwing `then`, a plain value |
| PromisePolyfill.Polyfill.RejectPromise | adapter/nodejs/web-adapter.js:5169-5171 | `i` on the store in place |
| PromisePolyfill.Polyfill.NewPromise | adapter/nodejs/web-adapter.js:5132-5136 | A new promise is pending and its two functions share one flag; the invariant is kept |
| PromisePolyfill.Polyfill.CallThenOn | adapter/nodejs/web-adapter.js:5195-5199 | `then` on the store in place; the invariant is kept |
| PromisePolyfill.Polyfill.CallResolveOf | adapter/nodejs/web-adapter.js:5182-5183 | Only the first call of either function of a pair has an effect; the invariant is kept |
| PromisePolyfill.Polyfill.CallRejectOf | adapter/nodejs/web-adapter.js:5184-5185 | Likewise for the rejecting function |
| PromisePolyfill.Polyfill.RunNextJob | adapter/nodejs/web-adapter.js:5139-5150 | The oldest job runs on the objects as in the machine; it calls the callback for the outcome, with the value or the reason of the promise at the end of the chain, or none if there is none, and reports a rejection exactly if it is unhandled; the invariant is kept |
| PromisePolyfill.Polyfill.CallbackReturned | adapter/nodejs/web-adapter.js:5148 | The end of a callback on the objects is that of the machine: the derived promise is resolved with what was returned (`PromiseMachine.CallbackOutcome`) |
| PromisePolyfill.Polyfill.CallbackThrew | adapter/nodejs/web-adapter.js:5145-5146 | Likewise the derived promise is rejected with what the callback threw (`PromiseMachine.CallbackOutcome`) |
| NextTick.RunsInOrder | adapter/native/web-adapter.js:91-146 | Over every run of `nextTick` calls, timers, returning and throwing tasks, the tasks started are a prefix of the tasks submitted, in that order and each once; and while some remain, a task is running or exactly one timer is set |
| NextTick.StepRuns | adapter/native/web-adapter.js:96-146 | A timer that fires, or a task that returns, starts exactly the first task not yet started, if there is one; a throw starts none and reruns none, although the clean-up puts the whole old queue back |
| NextTick.ProceedRuns | adapter/native/web-adapter.js:117-131 | The nested loops of `drainQueue`, from anywhere in a queue, start the next task or end with nothing left |
| NextTick.Process.NextTick | adapter/native/web-adapter.js:135-145 | `nextTick` on the globals: the timer is set only for the first task outside a drain |
| NextTick.Process.DrainQueue | adapter/native/web-adapter.js:111-133 | `drainQueue` on the globals does what the machine says |
| NextTick.Process.CleanUpNextTick | adapter/native/web-adapter.js:96-109 | `cleanUpNextTick` on the globals does what the machine says |
| NextTick.Process.Happens | adapter/native/web-adapter.js:96-133 | Every event keeps the invariant of the globals |
| EventTarget.EventTarget.AddEventListener | adapter/native/web-adapter.js:1343-1385 | A listener is added at the end of the list of its event, exactly if its pair of listener and type is not there yet; what is stored is the listener, for the capturing phase exactly if the flag or the option asks for it, for one call exactly if `once` does and passive exactly if `passive` does; falsy listeners and values that are neither function nor object change nothing; other lists stay; no list ever holds a pair twice |
| EventTarget.EventTarget.RemoveEventListener | adapter/native/web-adapter.js:1394-1419 | Exactly the node with the pair is unlinked, at the head, inside or as the last; the answer says whether there was one, of that listener and with that choice of the capturing phase |
| EventTarget.EventTarget.DispatchEvent | adapter/native/web-adapter.js:1426-1482 | The function listeners of the entries visited are called once each, in the order of registration; the entries visited are all, or those up to the first after which the event is stopped; afterwards the list is the old one minus exactly the visited entries for one call; the result says whether the event was cancelled, by the handler or by a listener that is not passive |
| EventTarget.EventTarget.Walk | adapter/native/web-adapter.js:1451-1477 | The loop of the dispatch, which relinks the list while it walks it |
| EventTarget.EventTarget.Unlink | adapter/native/web-adapter.js:1455-1461 | Unlinking through `prev`, through the map or by deleting the entry leaves a linked list without that node, and leaves the next pointer of the node as it was |
| EventTarget.EventTarget.Find | adapter/native/web-adapter.js:1370-1379 | The traversal finds the node of the pair with its predecessor exactly if the list has one |
| EventTarget.VisitsIsUnique | adapter/native/web-adapter.js:1472-1475 | How many entries a dispatch visits is determined by the list, the event and what the calls do |
| EventTarget.CalledOnce | adapter/native/web-adapter.js:1466-1475 | A dispatch calls no pair of listener and type twice, and calls only functions that are registered |
| EventTarget.LeftAfter | adapter/native/web-adapter.js:1453-1464 | After a dispatch an entry is registered exactly if it was not visited or was not for one call |
| EventTarget.VisitedStays | adapter/native/web-adapter.js:1453-1464 | From a list without duplicates, a pair that a dispatch has visited is registered afterwards if and only if it is not for one call |
| EventTarget.AddedOnce | adapter/native/web-adapter.js:1343-1464 | A listener that is added and then visited by a dispatch is registered afterwards, unless it was added with `once` |
| EventTarget.RemovedAdded | adapter/native/web-adapter.js:1394-1419 | Removing a listener that was just added leads back to the old list |
| EventTarget.RemovedIsGone | adapter/native/web-adapter.js:1394-1419 | After a removal that pair is gone, every other pair is still there, and there are no duplicates |
| EventTarget.AddedKeeps | adapter/native/web-adapter.js:1370-1382 | Adding to a list without duplicates gives one without duplicates that holds the pair |
| Utf8.DecodeEncode | adapter/nodejs/web-adapter.js:1805-1883 | Decoding the UTF-8 of a string gives the string back exactly when it is well-formed UTF-16 (RFC 3629, section 3; RFC 2781, section 2) |
| Utf8.EncodeDecode | adapter/nodejs/web-adapter.js:1093-1164 | Encoding the decoding of bytes gives the bytes back exactly when they are well-formed UTF-8 |
| Utf8.EncodesAll | adapter/nodejs/web-adapter.js:1818-1841 | The encoder writes a character for every character of the string, unpaired surrogates replaced, exactly when the string does not end in two lead surrogates; then the last one is dropped |
| Utf8.ItemsAre | adapter/nodejs/web-adapter.js:1812-1880 | For every string the encoder writes the characters of the string read as UTF-16, but for that dropped lead |
| Utf8.EncodeIsWellFormed | adapter/nodejs/web-adapter.js:1805-1883 | For every string the output is well-formed UTF-8 |
| Utf8.DecodeIsWellFormed | adapter/nodejs/web-adapter.js:1093-1164 | For every byte array the output is well-formed UTF-16 |
| Utf8.LimitedIsWellFormed | adapter/nodejs/web-adapter.js:1805-1883 | With any limit the output is well-formed UTF-8 |
| Utf8.FitIsPrefix | adapter/nodejs/web-adapter.js:1854-1870 | With a limit the encoder writes whole characters from the start, as many as fit, and no byte more |
| Utf8.Utf8ToBytes | adapter/nodejs/web-adapter.js:1805-1883 | The loop, with its waiting lead surrogate and its running limit, writes the items that fit |
| Utf8.Utf8Slice | adapter/nodejs/web-adapter.js:1093-1164 | The loop decodes the bytes from `start` to `end`, or to the end of the buffer |
| Utf8.JoinChunks | adapter/nodejs/web-adapter.js:1171-1187 | Joining the code units in chunks gives the same as joining them at once |
| Utf8.Decode1Is | adapter/nodejs/web-adapter.js:1109-1151 | A turn of the decoder accepts exactly the well-formed characters, and gives their code point; anything else costs one byte and gives U+FFFD |
| Utf8.DecodeEncode1 | adapter/nodejs/web-adapter.js:1852-1879 | Every code point is decoded from its encoding, whatever follows |
| IntCodec.ValueRoundTrip | adapter/nodejs/web-adapter.js:1335-1351 | For one byte or more, the value of the two's-complement bytes of an integer is that integer, exactly in the range that the writers accept; likewise without a sign |
| IntCodec.BytesRoundTrip | adapter/nodejs/web-adapter.js:1528-1549 | The bytes of the value of bytes are those bytes, signed or unsigned |
| IntCodec.DigitsWrap | adapter/nodejs/web-adapter.js:1442-1459 | Values that differ by a multiple of the modulus have the same bytes |
| IntCodec.WriteIntLE | adapter/nodejs/web-adapter.js:1528-1549 | Truncating division and the running borrow store exactly the two's-complement bytes; all other bytes stay; a value or a range out of bounds changes nothing |
| IntCodec.WriteIntBE | adapter/nodejs/web-adapter.js:1551-1572 | The same, most significant byte first |
| IntCodec.WriteUIntLE | adapter/nodejs/web-adapter.js:1442-1459 | The unsigned bytes are stored, all other bytes stay, errors change nothing |
| IntCodec.WriteUIntBE | adapter/nodejs/web-adapter.js:1461-1478 | The same, most significant byte first |
| IntCodec.ReadIntLE | adapter/nodejs/web-adapter.js:1335-1351 | The signed value of the bytes, or an error past the end |
| IntCodec.ReadIntBE | adapter/nodejs/web-adapter.js:1353-1369 | The same, most significant byte first |
| IntCodec.ReadUIntLE | adapter/nodejs/web-adapter.js:1266-1279 | The unsigned value of the bytes, or an error past the end |
| IntCodec.ReadUIntBE | adapter/nodejs/web-adapter.js:1281-1295 | The same, most significant byte first |
| Base64.DecodedText | adapter/nodejs/web-adapter.js:54-98 | `toByteArray(fromByteArray(b))` is `b` and has the length that `_byteLength` gives, for every byte array |
| Base64.EncodeDecoded | adapter/nodejs/web-adapter.js:107-151 | `fromByteArray` gives a decoded text back if and only if the text was canonical: alphabet characters, pads only at the end of the last group, no stray bits before a pad (RFC 4648, sections 3 and 4) |
| Base64.ToByteArray | adapter/nodejs/web-adapter.js:54-98 | On every string: the error for a bad length, the error for a length below zero, or the decoded bytes, which fill the array exactly |
| Base64.FillGroups | adapter/nodejs/web-adapter.js:72-82 | The main loop, whose bound may lie between two groups, decodes exactly the whole groups |
| Base64.FromByteArray | adapter/nodejs/web-adapter.js:120-151 | Cutting the input into chunks of 16383 bytes gives the same text as one pass |
| Base64.EncodeChunk | adapter/nodejs/web-adapter.js:107-118 | A chunk is encoded as RFC 4648 has it |
| Base64.TextIs | adapter/nodejs/web-adapter.js:120-151 | Character `k` of the text encodes bits `6k` to `6k + 5` of the bytes, and is a pad exactly if no byte holds bit `6k` |
| Base64.CanonicalIsText | adapter/nodejs/web-adapter.js:107-151 | Every canonical text is the encoding of some bytes |
| Base64.TextIsCanonical | adapter/nodejs/web-adapter.js:107-151 | Every encoding is canonical |
| Base64.LookupIs | adapter/nodejs/web-adapter.js:12-16 | The table for the encoder is the alphabet of RFC 4648, table 1, in order |
| Base64.RevLookupIs | adapter/nodejs/web-adapter.js:12-21 | The table for the decoder leads from each character of the alphabet to its place, and from the two of the URL-safe alphabet to those of the characters they replace |
| Base64.UrlSafeDecoded | adapter/nodejs/web-adapter.js:18-21 | Every text is decoded alike in the URL-safe alphabet |
| Btoa.Btoa | adapter/nodejs/web-adapter.js:2506-2512 | For every string, the loop with the fractional index, the 32-bit shift register and the exchanged alphabet gives what `fromByteArray` gives for the same bytes, and fails exactly if a character is above 255 |
| Btoa.RegisterSextet | adapter/nodejs/web-adapter.js:2507 | The masked register is the next six bits of the bytes, and 0 where the alphabet is `=` |
| Btoa.Atob | adapter/nodejs/web-adapter.js:2512-2516 | On every string, the streaming loop gives what decoding the kept indices by groups gives |
| Btoa.AtobBtoa | adapter/nodejs/web-adapter.js:2506-2516 | `atob(btoa(a))` is `a`, for every Latin-1 string |
| Btoa.AtobText | adapter/nodejs/web-adapter.js:2512-2516 | `atob` decodes the encoding of any bytes |
| Btoa.IndexInIs | adapter/nodejs/web-adapter.js:2512-2516 | The index is the place of the character in the alphabet followed by the pad; exactly the other characters are skipped |
| Btoa.Skipped | adapter/nodejs/web-adapter.js:2512-2516 | A skipped character, wherever it stands, makes no difference to the indices that are decoded |
| BufferSearch.ForwardIndexOf | adapter/nodejs/web-adapter.js:923-932 | The least match at or after the offset, or -1 if and only if there is none; the search ends although a mismatch sets the index back |
| BufferSearch.BackwardIndexOf | adapter/nodejs/web-adapter.js:934-944 | The greatest match at or before the offset, or -1 if and only if there is none |
| BufferSearch.BidirectionalIndexOf | adapter/nodejs/web-adapter.js:838-892 | The same for every offset, absent, negative, beyond the end or beyond 32 bits; the empty needle is never found; a number is searched for as its low byte |
| BufferSearch.Includes | adapter/nodejs/web-adapter.js:950-952 | True exactly if there is a match from the offset on; false for an empty needle |
| BufferSearch.FirstAndLast | adapter/nodejs/web-adapter.js:954-960 | `indexOf` and `lastIndexOf` find something alike, and all matches lie between the two |
| BufferSearch.NumberIs | adapter/nodejs/web-adapter.js:873-886 | A number is found at the first byte that equals it modulo 256, and is not found if and only if there is none |
| ThreadPool.Reachable | cocos/audio/AudioEngine.cpp:92-148 | In every reachable state: the tasks that the run has handed in are those begun, in that order, followed by those queued; the tasks begun are done or running; before the stop, if a worker sleeps, the tasks queued are at most the workers awake and idle; after the stop no worker sleeps |
| ThreadPool.RunKeeps | cocos/audio/AudioEngine.cpp:92-148 | The invariant holds over every interleaving, spurious wakeups included |
| ThreadPool.StepKeepsWakeups | cocos/audio/AudioEngine.cpp:121-140 | No step loses a wakeup |
| ThreadPool.StepKeepsStopping | cocos/audio/AudioEngine.cpp:108-113 | After the stop nobody sleeps or falls asleep; before it nobody leaves |
| ThreadPool.StepConserves | cocos/audio/AudioEngine.cpp:121-140 | Tasks begun are running or done, and tasks added are begun or queued, in order |
| ThreadPool.QueuedIsTaken | cocos/audio/AudioEngine.cpp:128-133 | While a task is queued and a worker is not busy, some worker's next turn takes the first task |
| ThreadPool.Rests | cocos/audio/AudioEngine.cpp:121-140 | Left alone, the workers come to rest after at most as many steps as the measure says |
| ThreadPool.RestMeansDone | cocos/audio/AudioEngine.cpp:121-140 | At rest before the stop, every task that the run has handed in has been run to its end |
| ThreadPool.RestMeansJoined | cocos/audio/AudioEngine.cpp:108-118 | At rest after the stop, every worker has left its loop, so the joins return |
| ThreadPool.AfterStop | cocos/audio/AudioEngine.cpp:108-118 | After the stop no task is begun, and whatever comes from outside, the workers take at most two steps each |
| ThreadPool.Pool.AddTask | cocos/audio/AudioEngine.cpp:102-106 | `addTask` on the pool's fields; the invariant is kept |
| ThreadPool.Pool.Turn | cocos/audio/AudioEngine.cpp:121-140 | A turn of `threadFunc` under the mutex, on the pool's fields; the invariant is kept |
| ThreadPool.Pool.Stop | cocos/audio/AudioEngine.cpp:108-113 | The destructor before the joins; the invariant is kept |
| AudioIndex.Reachable | cocos/audio/AudioEngine.cpp:189-257 | After every sequence of operations an id is in the list of a path exactly once if its info names the path and not at all otherwise, likewise for the profile helpers, what an info points to exists, and the sounds are never more than the platform allows |
| AudioIndex.RunKeeps | cocos/audio/AudioEngine.cpp:189-257 | Every sequence of operations keeps the indexes consistent |
| AudioIndex.StepInv | cocos/audio/AudioEngine.cpp:150-586 | Every operation keeps the indexes consistent, and without a backend there is no sound |
| AudioIndex.PlayedWithinLimits | cocos/audio/AudioEngine.cpp:205-255 | A sound that starts belongs to the profile handed in, or to the default one exactly if that exists, and respects the limit of the engine, the limit of that profile and its minimum delay |
| AudioIndex.PlayedRegisters | cocos/audio/AudioEngine.cpp:204-253 | A sound that starts is entered with its path, its loop flag and its profile, at the end of the list of its path and of its profile helper, which gets the time and the profile handed in; nothing else changes |
| AudioIndex.PlayedNothing | cocos/audio/AudioEngine.cpp:189-220 | A call that starts nothing changes no sound and no list; it may start the backend, and from the point where the file is known the helper of the name handed in exists and has the profile |
| AudioIndex.NeverOverLimit | cocos/audio/AudioEngine.cpp:189-257 | In every run in which the profiles of a name have one limit, there are never more sounds of that name than the limit |
| AudioIndex.StopOutcome | cocos/audio/AudioEngine.cpp:367-427 | `stop` and `remove` take out one sound, `uncache` those of a path and `stopAll` all; the other sounds, the profiles, their times and all settings stay |
| AudioIndex.EnabledOutcome | cocos/audio/AudioEngine.cpp:578-586 | After disabling there is no sound; enabling changes nothing else |
| AudioIndex.LimitOutcome | cocos/audio/AudioEngine.cpp:483-490 | The limit becomes the new one exactly if that is positive and within the platform's, and nothing else changes |
| AudioIndex.EndOutcome | cocos/audio/AudioEngine.cpp:150-166 | After `end` there is no sound, no backend and no default profile |
| AudioIndex.DefaultOutcome | cocos/audio/AudioEngine.cpp:530-536 | The default profile is made once, without a limit and without sounds |
| AudioIndex.PauseOutcome | cocos/audio/AudioEngine.cpp:296-320 | Whatever its state was, a paused sound is paused and a resumed one plays; all others stay as they are |
| AudioIndex.PauseAllOutcome | cocos/audio/AudioEngine.cpp:304-330 | After `pauseAll` every sound is paused, after `resumeAll` every sound plays |
| AudioIndex.SuspendOutcome | cocos/audio/AudioEngine.cpp:332-365 | After the way to the background every sound is paused and exactly those that played are remembered besides those remembered before; on the way back exactly the remembered ones play |
| AudioIndex.StartsExactly | cocos/audio/AudioEngine.cpp:189-257 | A sound starts if and only if the engine is enabled and runs or can be started, the file is there, the limits of the engine and of the governing profile are not reached, its delay has passed, and the backend gives an id; otherwise no sound and no path is added |
| AudioIndex.UncachedInv | cocos/audio/AudioEngine.cpp:402-427 | Uncaching a path takes out exactly the sounds of that path |
| AudioIndex.StoppedAllInv | cocos/audio/AudioEngine.cpp:387-400 | `stopAll` leaves no sound, and no id in any helper |
| AudioIndex.EndedInv | cocos/audio/AudioEngine.cpp:150-166 | After `end` no info is left that could point to the deleted default helper |
| AudioIndex.UnlinkedIs | cocos/audio/AudioEngine.cpp:376-385 | Removing an id from the two lists that its info points to removes it from all lists |
| AudioIndex.BackgroundForeground | cocos/audio/AudioEngine.cpp:332-365 | Going to the background and back leaves all sounds as they were, if and only if no paused sound was still on the list of those to be resumed |
| AudioIndex.SuspendedTwice | cocos/audio/AudioEngine.cpp:332-365 | A run that leads there: after one sound is started and the background entered, entering it again and coming back makes the paused sound play |
| AudioIndex.AudioEngine.Play2d | cocos/audio/AudioEngine.cpp:189-257 | `play2d` on the engine's maps, in all its branches; the invariant is kept |
| AudioIndex.AudioEngine.Stop | cocos/audio/AudioEngine.cpp:367-374 | `stop` gives the same whether or not the backend calls `remove` meanwhile; there is a backend to call whenever there is the sound |
| AudioIndex.AudioEngine.Remove | cocos/audio/AudioEngine.cpp:376-385 | `remove` on the engine's maps, also in the middle of `uncache` |
| AudioIndex.AudioEngine.StopAll | cocos/audio/AudioEngine.cpp:387-400 | The loop over the infos empties every helper; the invariant is kept |
| AudioIndex.AudioEngine.Uncache | cocos/audio/AudioEngine.cpp:402-427 | The loop over the copied list gives the same whichever sounds the backend removes meanwhile; the invariant is kept |
| AudioIndex.AudioEngine.SetEnabled | cocos/audio/AudioEngine.cpp:578-586 | Disabling stops all sounds, a repeated call does nothing |
| AudioIndex.AudioEngine.SetMaxAudioInstance | cocos/audio/AudioEngine.cpp:483-490 | The limit changes exactly if the new one is positive and within the platform's |
| AudioIndex.AudioEngine.End | cocos/audio/AudioEngine.cpp:150-166 | `end` on the engine's maps; the invariant is kept |
| AudioIndex.AudioEngine.OnEnterBackground | cocos/audio/AudioEngine.cpp:332-347 | Every playing sound is paused and remembered |
| AudioIndex.AudioEngine.OnEnterForeground | cocos/audio/AudioEngine.cpp:349-365 | The remembered sounds that are still paused play again, and the memory is emptied |

## Left out

- HTML mode: the special treatment of XHTML elements (`adapter/nodejs/web-adapter.js:7226-7228`, `7518-7539`), and the serializer's.
- Document types and processing instructions: their reader is the parameter `markup` of the parser, under no assumption; printed trees hold none of them.
- XmlRoundTrip.RoundTrip: is about trees without namespaces, as the serializer never shortens its list of visible namespaces (`adapter/nodejs/web-adapter.js:6599-6600`), so that a declaration can be missing in a later sibling.
- XmlTree.SerializeToString: does not model node filters and namespace declarations that the serializer adds by itself.
- XmlTree.NormalizeIsNormal: `normalize` on trees as values, as the round trip needs it; on the pointers it is `DomNormalize.Normalize`, where comments and instructions are leaves whose data never changes.
- Locators, line numbers and the wording of messages: the parser counts its reports.
- XmlScanner.Turn: the turns that repair a quotation mark without `=` or inside a value, and a name right after a value, are modelled with their warnings, but only their progress is stated.
- Attribute and entity names that collide with the members of a JavaScript object's prototype, such as `constructor`.
- Characters beyond the basic plane in XML: a string is a sequence of characters, not of surrogates.
- DomTree.InsertBefore: requires, as the insertions of `DomTree` do, a new child that was never attached or is attached; for one that was removed before, `DomStale.InsertRemoved` and `DomStale.AppendRemoved` say what happens. It also requires that the new child is not the reference node; `DomStale.InsertAtItself` says what happens if it is.
- DomStale.InsertRemoved: decides whether the lists are exactly the intended ones; in the other cases it says which pointers are left, not whether these are by chance those of shorter lists, as in `DomStale.LoseChild`. Where following the pointers would never end, the answer says so and nothing more is done. A fragment has no parent to be removed from.
- XmlNamespaces.DocumentScoped: one direction, as a repeated declaration of a prefix that no name uses does no harm in the document; in terms of the maps of open elements `XmlNamespaces.AlwaysAgree` gives both.
- DomTree.Valid: says nothing about `documentElement`, or the array of a document or a fragment, which the code does not keep in step; cycles are the matter of `DomAncestors`.
- `NodeList` entries beyond `length`, live lists, attribute maps by namespace, cloning and importing.
- PromiseMachine.DoInv: assumes that no resolution closes a cycle of adoptions longer than one; `AdoptionStaysGrounded` shows that this is exactly what is needed, and `CycleReachable` that a run leads there.
- `Promise.all`, `race`, `finally`, `resolve` and `reject`: built from what is modelled.
- NextTick.StepRuns: a timer fires only while no task is on the stack, as in a browser or in Node; the arguments of tasks are not modelled.
- EventTarget.EventTarget.DispatchEvent: listeners do not add, remove or dispatch on the same target, and do not throw; what each call does to the event is given from outside.
- Listener counters and system events of `EventTarget`: the counters are never lowered, so there is nothing to conserve.
- Buffer methods with `noAssert`, byte lengths other than 1 to 6, values that are not integers, and floating-point reads and writes.
- BufferSearch.BidirectionalIndexOf: does not model two-byte encodings, whose indices can become fractions, nor fractional offsets; the built-in search for a number is taken to be the buffer's own.
- Hexadecimal, ASCII and UTF-16 transcoding of buffers.
- ThreadPool.Rests: a task is taken to end; how long it runs and how threads are created is not modelled.
- AudioIndex.PlayedWithinLimits: time and delays are real numbers without rounding; volumes are left out.
- AudioIndex.StepInv: ids that the backend gives are fresh; the backend's `stopAll` does not call `remove`.
- The order and the repetitions in `sBreakAudioID`, which have no effect.
- Both `engine-adapter.js` files, canvas, fonts, video, physics and build scripts: input, output and foreign calls.
