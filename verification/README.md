# Verified models of Frida IRE's protocols, codecs and state machines

Frida IRE instruments running processes. Most of it is glue to an operating system, a browser or an IDE; the
parts modelled here decide something by themselves, and each is a Dafny module or a few of them:

* **WinIpc** (`winipc_*.dfy`): two proxies on the ends of a pipe query each other at the same time, and handlers
  may answer late and in any order. A class with the proxy's fields is proved against functions on its value;
  every interleaving of two of them with the messages under way is a run of `WinIpcNetwork.Next`.
* **Property lists** (`property_list*.dfy`, `markup.dfy`, `decimal.dfy`): the recursive XML writer, the event-driven
  parser with its stack and half-built pair, and the part of GMarkup between them; what is read of a document that
  another program wrote is said of its text (`property_list_foreign.dfy`).
* **CloudSpy promise** (`promise*.dfy`): settling on one thread, registering on another, flushes that drop the
  mutex, callbacks that register callbacks, and all reference counts.
* **Fruity** (`fruity_*.dfy`): the usbmux client's framing over a stream cut into arbitrary chunks, its
  tag-correlated queries, its error path and the mode switch that hands the stream over, and what each protocol
  version makes of a message.
* **Linux injector** (`linjector.dfy`): the word-wise remote write and the landing-strip scan.
* **Resource compiler** (`resource_*.dfy`, `string_order.dfy`): the C initializers and the generated lookup.
* **Python listeners** (`signal_*.dfy`): the listener list of a session or script object, with references.
* **Process enumerator** (`process_enumerator.dfy`, `enumerator_runs.dfy`): requests that share one worker.
* **Offside-rule lexer** (`offside_*.dfy`) and **ELF loader** (`elf_loader.dfy`).

Code that updates objects or buffers is a class or a method over an array here, tied by its `ensures` to a function
of the old state; the theorems are about those functions and about runs, which are arbitrary finite sequences of
steps. A step that cannot happen leaves the state as it is. Fields named as history (`completed`, `invoked`,
`issued`, `served`, `calls`, `due` and the like) record what happened and never decide what happens next.

What the proofs show the code does not do, each with the exact condition under which it does:

* A property list survives writing and reading, but for its unsigned numbers becoming signed, exactly if all its
  keys and strings are non-empty and free of `<`, `&` and carriage returns (`ReadIffPlain`); unsigned values are
  unchanged as well exactly if they are below 2^31 (`RoundTripIffFaithful`).
* A document from elsewhere is read as its items mean (`ReadDocument`), where an empty element takes the text behind
  it for its own, so that an empty string becomes white space (`ReadEmpty`); and a dictionary inside an array ends the
  dictionary around the array (`DictInArray`).
* A message is read back exactly if it has at most 2048 bytes; `create_message` does not check (`DecodeCreated`).
* The success of a mode switch stops the message loop only if no later mode switch was issued
  (`StopsIffLastModeSwitchSucceeds`, `OverlappingModeSwitches`); it leaves every other query waiting
  (`ModeSwitchStrandsOthers`). A query made is neither outstanding nor ended, and so never will be, exactly if it was
  still waiting so when a later attempt to connect failed (`ForgottenIff`; `StrandedThenForgotten` is such a run).
* A stopped client that connects again takes the first message of the new stream exactly if it was never closed
  while processing messages, and the message is one it can use (`ReconnectWorksIff`, `ClosedClientFailsToReconnect`).
* A process list may be older than the request it answers, exactly if it was waiting to be delivered when the
  request was made (`FreshIff`, `ListOlderThanRequest`).
* The lexer's buffer of twice the input is exceeded exactly if the indentation asks for more outdents than there are
  characters. It suffices whenever no line starts two tabs or more short of what is expected there, so without
  indentation errors and with lines that are too deep, but not with every error (`FitsIff`, `OverIndented`,
  `BadIndentationOverflows`).
* The ELF loader reads the program header table from its place exactly under the conditions of
  `LoadsTheTableIff`; a table inside the header is missed (`TableInsideHeaderIsMissed`).

Assumptions: WinIpc request ids, usbmux tags and reference counts do not wrap; writes succeed while a pipe or socket
is healthy; a GVariant is opaque but for its type; words of the traced process have 8 bytes, lowest first, and `ptrace`
fails exactly on unmapped words. GLib reports a null variant where a type is asked for as a warning and compares it as
different, so such a query is refused; a GLib set to abort on warnings is not modelled. The page that calls a method of
a promise holds a reference to it until the call returns: the source takes its own only after the flush, so a promise
survives the flush of an `invoke` because of the page, and that of `deliver` because of the reference `deliver` took.

## Model

| member | source | states |
|---|---|---|
| WinIpcProxy.Proxy.RegisterQueryHandler | zed/lib/winipc/proxy.vala:123-130 | the handler is added under its verb with a fresh tag, which is returned; tags stay unique |
| WinIpcProxy.Proxy.UnregisterQueryHandler | zed/lib/winipc/proxy.vala:141-153 | the loop over the entries removes exactly the handler with the tag, if there is one |
| WinIpcProxy.Proxy.SendRequest | zed/lib/winipc/proxy.vala:276-282 | a query takes the next id, becomes pending under it, and writes a request with that id, its verb and its argument |
| WinIpcProxy.Proxy.ProcessRequest | zed/lib/winipc/proxy.vala:231-242 | a request with a handler of matching argument type starts it; any other is refused at once with its own id |
| WinIpcProxy.Proxy.FinishRequest | zed/lib/winipc/proxy.vala:368-380 | a handler's return answers the request it was started for, with success and the handler's value |
| WinIpcProxy.Proxy.ProcessResponse | zed/lib/winipc/proxy.vala:245-262 | a response ends the first pending query with its id and removes that entry only; an unmatched one changes nothing |
| WinIpcProxy.Proxy.Stop | zed/lib/winipc/proxy.vala:223-228 | closing and a failed read both end the loop, and together signal `closed` once |
| WinIpcProxy.ResumedQueryMayAskAgain | zed/lib/winipc/proxy.vala:251-261 | completing a query before its entry is removed is harmless: a caller that queries again meanwhile leads to the same proxy |
| WinIpcProxy.AnsweredPending | zed/lib/winipc/proxy.vala:260-261 | with distinct ids, an answer removes the query it names and no other |
| WinIpcOrigins.SameTypeIffAgrees | zed/lib/winipc/proxy.vala:412-430 | a value is of the type asked for iff none was asked for, or the empty one and there is no value, or there is one of exactly that type string |
| WinIpcOrigins.HandlerWasRegistered | zed/lib/winipc/proxy.vala:123-153 | a handler that is there was registered by a step of the run, as it is, and no step since has taken its tag off |
| WinIpcOrigins.RegisteredStays | zed/lib/winipc/proxy.vala:123-153 | a handler that a step registered is there, as registered, until a step takes its tag off |
| WinIpcOrigins.AcceptedIff | zed/lib/winipc/proxy.vala:231-242 | a request is accepted iff a step has registered a handler for its verb that takes its argument, and none has taken it off |
| WinIpcOrigins.QueryWasAsked | zed/lib/winipc/proxy.vala:276-282 | every query issued is that of the step which made it, under the id that was next then |
| WinIpcNetwork.NextInv | zed/lib/winipc/proxy.vala:203-292 | every step of either peer keeps, for both directions, ids distinct and below the next one, every message under way matched by a pending query, handlers at work only on pending queries, and completions as the service was |
| WinIpcNetwork.RunInv | zed/lib/winipc/proxy.vala:203-292 | the invariant holds after every interleaving of the two peers' steps |
| WinIpcTheorems.Provenance | zed/lib/winipc/proxy.vala:231-243 | every served query was delivered to the other end at a step of the run and judged by the handlers registered there at that step; a successful answer is what its handler returned at a later step |
| WinIpcTheorems.CompletionIsOwn | zed/lib/winipc/proxy.vala:179-193 | a completed query was asked at one step and delivered, as asked, at a later one; if a handler for its verb that takes its argument was registered then, it returns the very value that such a handler, at work on its verb and argument, returned, if that has the type asked for, and otherwise fails as an invalid response; if none was, it fails as unhandled |
| WinIpcTheorems.CompletesAtMostOnce | zed/lib/winipc/proxy.vala:245-262 | in no run does a query complete twice or complete while still pending |
| WinIpcTheorems.NoStrayResponse | zed/lib/winipc/proxy.vala:251-258 | every response under way, in any run, finds its query pending and is there once |
| WinIpcTheorems.ExactlyOnePlace | zed/lib/winipc/proxy.vala:276-292 | while the pipe is healthy a query is pending iff it is in exactly one of: request under way, handler at work, response under way; its id is below `last_request_id` |
| WinIpcTheorems.DrainedMeansAnswered | zed/lib/winipc/proxy.vala:203-292 | once a healthy run has drained, nothing is pending and each query issued has ended exactly once |
| WinIpcTheorems.CanComplete | zed/lib/winipc/proxy.vala:203-292 | from every healthy run every pending query can be completed within three steps of its own, whatever else is under way |
| WinIpcTheorems.AskIssues | zed/lib/winipc/proxy.vala:276-282 | a query made is pending under the next id and, while the pipe is healthy, its request is under way |
| WinIpcTheorems.StoppedForGood | zed/lib/winipc/proxy.vala:223-228 | once a proxy has stopped, whatever happens later, none of its queries ends, it takes none of the other end's, and `closed` is given once |
| StringOrder.BeforeTotal | zed/src/core/fruity/fruity-property-list.vala:205 | the string order that keys are sorted by is total and strict |
| StringOrder.BeforeIff | zed/src/core/fruity/fruity-property-list.vala:205 | a string is before another iff it is a proper prefix of it or has the lower character where they first differ |
| PropertyLists.SortedKeys | zed/src/core/fruity/fruity-property-list.vala:201-205 | the sorted keys are the dictionary's keys, each once, in strictly ascending order |
| Decimals.LeadingDigitsPrint | zed/src/core/fruity/fruity-property-list.vala:219-222 | the digits printed for a natural number are read as that number |
| Decimals.ParsePrint | zed/src/core/fruity/fruity-property-list.vala:173-176 | parsing a printed integer keeps its low 32 bits, so it gives the number back iff that is below 2^31 |
| Decimals.ParseForeign | zed/src/core/fruity/fruity-property-list.vala:173-176 | white space, a sign and digits, with anything behind them, are read as the number's low 32 bits, and as those of the largest 64-bit number beyond that |
| Decimals.ParseNothing | zed/src/core/fruity/fruity-property-list.vala:173-176 | text without a number in front is read as 0 |
| PropertyListWriter.XmlWriter.WriteLine | zed/src/core/fruity/fruity-property-list.vala:238-243 | the loop appends one tab per level, the line and a line break |
| PropertyListWriter.XmlWriter.WriteTag | zed/src/core/fruity/fruity-property-list.vala:234-236 | appends the content between its tags, unescaped |
| PropertyListWriter.XmlWriter.Write | zed/src/core/fruity/fruity-property-list.vala:191-232 | appends the whole document at level 0 and a nested dictionary above it, and restores the level |
| PropertyListWriter.XmlWriter.WriteValue | zed/src/core/fruity/fruity-property-list.vala:216-224 | appends the value's text for its type |
| PropertyListWriter.XmlWriter.WriteEntries | zed/src/core/fruity/fruity-property-list.vala:207-225 | the loop appends a key and a value per key, in order |
| PropertyListExample.WrittenExample | zed/src/core/fruity/fruity-property-list.vala:191-243 | a list with a nested dictionary is written as this text, character by character |
| PropertyListParser.XmlParser.OnStartElement | zed/src/core/fruity/fruity-property-list.vala:110-136 | the callback changes the stack and the pair as `OnStart` does, null keys included |
| PropertyListParser.XmlParser.OnEndElement | zed/src/core/fruity/fruity-property-list.vala:138-141 | the end of a `dict` closes the innermost dictionary, under its key in the one below |
| PropertyListParser.XmlParser.OnTextRun | zed/src/core/fruity/fruity-property-list.vala:143-160 | a text run becomes the pair's key or, with the element seen, a value stored in the innermost dictionary |
| PropertyListParser.XmlParser.Parse | zed/src/core/fruity/fruity-property-list.vala:99-108 | the loop over the document ends in the state that `Run` gives for it, or with the same error |
| Markup.NextToken | zed/src/core/fruity/fruity-property-list.vala:103-104 | each token leaves a proper suffix of the document, so reading it ends |
| Markup.Unescape | zed/src/core/fruity/fruity-property-list.vala:143 | a text run that is not empty stays so with its references resolved, so an empty element yields no text event |
| PropertyListForeign.UnescapeReference | zed/src/core/fruity/fruity-property-list.vala:143 | a reference in text is read as what it stands for, and fails the parse if it stands for nothing |
| PropertyListForeign.UnescapeLineBreak | zed/src/core/fruity/fruity-property-list.vala:143 | every kind of line break in text is read as a line feed |
| PropertyListRoundTrip.NestedDict | zed/src/core/fruity/fruity-property-list.vala:124-141 | opening a dictionary inside a pair, filling it and closing it is storing it under the pair's key, with the stack as before |
| PropertyListRoundTrip.RunValue | zed/src/core/fruity/fruity-property-list.vala:207-225 | reading the text of a value, at any level and before any rest, stores what that value reads back as under the awaited key |
| PropertyListRoundTrip.RunDict | zed/src/core/fruity/fruity-property-list.vala:198-228 | reading a written dictionary is opening it, storing all its values and closing it; the stack is back at its depth |
| PropertyListRoundTrip.PlainIsRead | zed/src/core/fruity/fruity-property-list.vala:5-19 | every property list with plain text, of any nesting and with any numbers, is read as itself with each unsigned number as the `int` of its low 32 bits |
| PropertyListRoundTrip.FaithfulIsReadBack | zed/src/core/fruity/fruity-property-list.vala:5-19 | every faithful property list, of any nesting, is read back from what is written for it |
| PropertyListExactness.XmlCount | zed/src/core/fruity/fruity-property-list.vala:191-236 | a written document has exactly the semicolons of its keys and strings |
| PropertyListExactness.ParsedCount | zed/src/core/fruity/fruity-property-list.vala:110-180 | a parsed tree has no more markup characters and semicolons than the document has semicolons, whatever the document |
| PropertyListExactness.ReadIffPlain | zed/src/core/fruity/fruity-property-list.vala:5-19 | for every tree: it is read as itself, but for signed numbers, iff all keys and strings are non-empty and markup-free |
| PropertyListExactness.RoundTripIffFaithful | zed/src/core/fruity/fruity-property-list.vala:5-19 | for every tree: writing and reading gives it back, with unsigned values below 2^31 as ints, iff all keys and strings are non-empty and markup-free and no unsigned value is 2^31 or more |
| PropertyListDocument.PropertyList.SetValue | zed/src/core/fruity/fruity-property-list.vala:74-76 | binds the key and leaves the others |
| PropertyListDocument.PropertyList.GetValue | zed/src/core/fruity/fruity-property-list.vala:65-72 | the value if the key is there with the type asked for, and which of the two errors otherwise |
| PropertyListDocument.PropertyList.ToXml | zed/src/core/fruity/fruity-property-list.vala:14-19 | gives the document of the object's contents |
| PropertyListDocument.PropertyList.ReadXml | zed/src/core/fruity/fruity-property-list.vala:5-12 | fills the object with what the document parses to, or reports the error |
| PropertyListDocument.AccessAfterRoundTrip | zed/src/core/fruity/fruity-property-list.vala:25-57 | after a round trip of a plain list every accessor gives what it gave before, with a child list being what it reads as; but unsigned values answer to `get_int`, whose cast to `uint` recovers them, and no longer to `get_uint` |
| PropertyListForeign.ReadItem | zed/src/core/fruity/fruity-property-list.vala:110-180 | an item of any layout, whoever wrote it, adds what it means to the dictionary being filled: strings, integers and dictionaries under their key, nothing for other elements |
| PropertyListForeign.ReadItems | zed/src/core/fruity/fruity-property-list.vala:110-180 | and so do items one after the other, in any order, the last value of a key being the one it has |
| PropertyListForeign.ReadDocument | zed/src/core/fruity/fruity-property-list.vala:99-180 | every document of declarations, comments, a root element and a dictionary of such items, with any white space between, is read as what its items mean |
| PropertyListForeign.UnknownElement | zed/src/core/fruity/fruity-property-list.vala:150-179 | an element of another type leaves every dictionary as it was, and drops the key |
| PropertyListForeign.UnknownEmptyElement | zed/src/core/fruity/fruity-property-list.vala:150-179 | so does an empty element such as `true`, with the white space behind it |
| PropertyListForeign.ReadEmpty | zed/src/core/fruity/fruity-property-list.vala:143-160 | an empty element takes the text behind it for its own, so an empty string becomes white space and an empty integer 0 |
| PropertyListForeign.DictInArray | zed/src/core/fruity/fruity-property-list.vala:110-141 | an array with an empty dictionary ends the dictionary around it, so that what follows is stored one level up or not at all |
| PropertyListForeign.ReadBrokenOff | zed/src/core/fruity/fruity-property-list.vala:99-108 | a document that breaks off inside a tag, any number of dictionaries deep, is read as what was there until then |
| PropertyListForeign.BreaksOffInText | zed/src/core/fruity/fruity-property-list.vala:99-108 | text that nothing follows is not read |
| PropertyListForeign.ReadMisc | zed/src/core/fruity/fruity-property-list.vala:103-104 | instructions, comments, document types and CDATA sections are skipped wherever they stand |
| PropertyListForeign.MismatchedEnd | zed/src/core/fruity/fruity-property-list.vala:103-104 | an end tag that does not match is an error |
| PropertyListForeign.StrayText | zed/src/core/fruity/fruity-property-list.vala:103-104 | text outside the root element is an error unless it is white space |
| PropertyListForeign.BadReference | zed/src/core/fruity/fruity-property-list.vala:103-104 | text with a reference that cannot be resolved is an error |
| PropertyListForeign.UnfinishedReference | zed/src/core/fruity/fruity-property-list.vala:103-104 | a reference without a semicolon stands for nothing |
| PropertyListForeign.NamelessTag | zed/src/core/fruity/fruity-property-list.vala:103-104 | a tag without a name is an error |
| PropertyListForeign.EmptyKeyFails | zed/src/core/fruity/fruity-property-list.vala:121-132 | a dictionary under an empty key is stored under a null key, which is an error here |
| Promises.Promise.Resolve | zed/bindings/cloud-spy/cloud-spy-promise.cpp:62-66 | settles as a success with the arguments given |
| Promises.Promise.Reject | zed/bindings/cloud-spy/cloud-spy-promise.cpp:68-72 | settles as a failure with the arguments given |
| Promises.Promise.Deliver | zed/bindings/cloud-spy/cloud-spy-promise.cpp:74-88 | sets the outcome and the arguments to those given, once |
| Promises.Promise.Add | zed/bindings/cloud-spy/cloud-spy-promise.cpp:199-212 | appends the callback to the array of its kind and to no other |
| Promises.Promise.TakeCallbacks | zed/bindings/cloud-spy/cloud-spy-promise.cpp:106-118 | takes all three arrays and leaves empty ones, and nothing while pending |
| Promises.Promise.InvokeCallbacks | zed/bindings/cloud-spy/cloud-spy-promise.cpp:120-124 | calls the array of the outcome and then the others, in order, with the settled arguments |
| PromiseInvariant.NextCount | zed/bindings/cloud-spy/cloud-spy-promise.cpp:84-103 | every step keeps the reference count equal to the number of owners: page, settler, scheduled flush; the page is one while it is inside an `invoke` |
| PromiseInvariant.NextPlace | zed/bindings/cloud-spy/cloud-spy-promise.cpp:106-131 | every step keeps each registered callback's reference in exactly one place: an array of its kind, one flush, or released once |
| PromiseInvariant.NextCalls | zed/bindings/cloud-spy/cloud-spy-promise.cpp:120-143 | every step keeps the calls made exactly those that are due: callbacks of matching kind that a flush has passed |
| PromiseInvariant.RunInv | zed/bindings/cloud-spy/cloud-spy-promise.cpp:74-220 | the invariant holds after every interleaving of registering, settling, flushing and releasing |
| PromiseOrigins.WasSettledBy | zed/bindings/cloud-spy/cloud-spy-promise.cpp:74-88 | the outcome and the arguments of a settled promise are those of the first step that settles it, made before the settler lets go of it |
| PromiseOrigins.SettledFrom | zed/bindings/cloud-spy/cloud-spy-promise.cpp:74-88 | a step that is the first to do so settles the promise for good, with its outcome and arguments |
| PromiseOrigins.OpenIff | zed/bindings/cloud-spy/cloud-spy-promise.cpp:74-88 | the settler can still settle the promise iff no step has done so or let go of it |
| PromiseOrigins.WasRegisteredBy | zed/bindings/cloud-spy/cloud-spy-promise.cpp:199-212 | every callback was registered by a step of the run, as the kind it has |
| PromiseOrigins.RegisteredFrom | zed/bindings/cloud-spy/cloud-spy-promise.cpp:199-212 | every step that registers a callback leaves it registered as that kind |
| PromiseLog.NextLog | zed/bindings/cloud-spy/cloud-spy-promise.cpp:114-128 | every step keeps what each flush has called the part of its batch it has come to, and all of it once it has ended |
| PromiseLog.RunLog | zed/bindings/cloud-spy/cloud-spy-promise.cpp:106-131 | so it is after every interleaving |
| PromiseTheorems.CalledAtMostOnce | zed/bindings/cloud-spy/cloud-spy-promise.cpp:106-131 | no callback is called twice in any run; each call is of a callback registered for the outcome that the settling step gave, or for any, and has the arguments which that step gave |
| PromiseTheorems.SettledForever | zed/bindings/cloud-spy/cloud-spy-promise.cpp:81-86 | no step after settling changes the outcome or its arguments |
| PromiseTheorems.QuiescentMeansServed | zed/bindings/cloud-spy/cloud-spy-promise.cpp:106-131 | settled and with no flush under way, each callback that a step registered has been called iff it was for the outcome that the settling step gave, or for any, and has been released |
| PromiseTheorems.ReleasedAfterCall | zed/bindings/cloud-spy/cloud-spy-promise.cpp:126-128 | a callback's reference is released once, and one that is due not before its call |
| PromiseTheorems.AliveWhileNeeded | zed/bindings/cloud-spy/cloud-spy-promise.cpp:90-103 | the promise is not freed before the settler has retained it or while its flush is scheduled or under way; nor during the flush of an `invoke`, as long as the page that calls holds it |
| PromiseTheorems.FreedMeansReleased | zed/bindings/cloud-spy/cloud-spy-promise.cpp:34-54 | a freed promise has no flush left, has released every callback it was given, and has called exactly those that a settling step's outcome concerned |
| PromiseTheorems.FlushFollowsBatch | zed/bindings/cloud-spy/cloud-spy-promise.cpp:114-128 | at every point of every run, with callbacks registering callbacks, what a flush has called is in log order a prefix of its batch's `done` callbacks after a success, or `fail` callbacks after a failure, and then its `always` callbacks; and all of these once it has ended |
| PromiseTheorems.FlushOrder | zed/bindings/cloud-spy/cloud-spy-promise.cpp:120-124 | the calls a flush has made are in registration order within one kind, with `always` callbacks last |
| PromiseTheorems.BatchAtRegister | zed/bindings/cloud-spy/cloud-spy-promise.cpp:199-214 | what an `invoke` after settling flushes is fixed then as the callbacks listed and the one it registers |
| PromiseTheorems.BatchAtBegin | zed/bindings/cloud-spy/cloud-spy-promise.cpp:114-116 | what a scheduled flush calls from is fixed when it begins, as the callbacks listed then |
| PromiseTheorems.UninterruptedFlush | zed/bindings/cloud-spy/cloud-spy-promise.cpp:120-143 | a flush's single calls, with nothing in between, amount to what `InvokeCallbacks` does |
| PromiseTheorems.CanQuiesce | zed/bindings/cloud-spy/cloud-spy-promise.cpp:74-143 | from every run that has settled, the promise can come to rest by steps of its own |
| PromiseTheorems.CanBeFreed | zed/bindings/cloud-spy/cloud-spy-promise.cpp:34-54 | a promise at rest is freed once the settler and the page have let go of it |
| FruityFraming.Le32RoundTrip | zed/src/core/fruity/fruity-client.vala:293 | a header word is read as it was written |
| FruityFraming.CreatedIsMessage | zed/src/core/fruity/fruity-client.vala:358-376 | a message is its size, the protocol version, its type and its tag, each in four bytes with the lowest first, and the body |
| FruityFraming.DecodedLayout | zed/src/core/fruity/fruity-client.vala:290-313 | a message is taken iff its size is from 16 to 2048 and all of it is there; type and tag are its third and fourth word and the body is the rest |
| FruityFraming.DecodeCreated | zed/src/core/fruity/fruity-client.vala:290-313 | a created message in front of any bytes is read back, and those bytes are left, iff it has at most 2048 bytes; otherwise the size is refused |
| FruityFraming.DecodeEncoded | zed/src/core/fruity/fruity-client.vala:290-313 | any sequence of messages with bodies up to 2032 bytes is read back from their concatenation |
| FruityFraming.DecodeOneMore | zed/src/core/fruity/fruity-client.vala:240-245 | reading message by message is reading them at once |
| FruityFraming.SocketInput.ReadAsync | zed/src/core/fruity/fruity-client.vala:324-325 | delivers between one and `count` bytes of the stream, in order, or none exactly at its end |
| FruityFraming.SocketInput.Read | zed/src/core/fruity/fruity-client.vala:319-336 | the loop fills the buffer with exactly the next `count` bytes whatever the chunks, touches nothing else, and fails iff fewer are left |
| FruityFraming.SocketInput.ReadMessage | zed/src/core/fruity/fruity-client.vala:290-313 | reads the message `Decode` finds in the stream and consumes it exactly, or reports the same error |
| FruityFraming.SendAndReceive | zed/src/core/fruity/fruity-client.vala:290-336 | messages sent back to back and cut into any non-empty chunks are received as sent, and the bytes after them are still there |
| FruityClient.FruityClient.BuildMessage | zed/src/core/fruity/fruity-client.vala:358-377 | the filled buffer is header and body, word by word little-endian |
| FruityClient.FruityClient.Establish | zed/src/core/fruity/fruity-client.vala:168-191 | a new connection starts the message loop on its stream; a failed one resets the client and forgets what was pending |
| FruityClient.FruityClient.Query | zed/src/core/fruity/fruity-client.vala:225-234 | takes the next tag, notes it if it asks for a mode switch, becomes pending, and sends a message with that tag |
| FruityClient.FruityClient.HandleResultMessage | zed/src/core/fruity/fruity-client.vala:255-275 | a result ends the first query with its tag and removes it; an unknown tag is an error that changes nothing; the mode-switch tag stops the loop or is forgotten |
| FruityClient.FruityClient.FailPending | zed/src/core/fruity/fruity-client.vala:245-249 | every pending query fails with PROTOCOL_ERROR, in order, and the client is reset |
| FruityClient.FruityClient.ProcessOneMessage | zed/src/core/fruity/fruity-client.vala:242-249 | one turn of the loop: read, dispatch, and on any error fail everything |
| FruityClient.FruityClient.ProcessIncomingMessages | zed/src/core/fruity/fruity-client.vala:240-251 | the loop ends in the state that `Loop` gives, with processing stopped |
| FruityClient.FruityClient.Close | zed/src/core/fruity/fruity-client.vala:197-203 | refuses when not processing; otherwise stops and cancels the input |
| FruityRuns.NextInv | zed/src/core/fruity/fruity-client.vala:157-275 | every step keeps tags distinct and below `last_tag`, every query outstanding, ended once or forgotten, and what is left of the stream what follows the messages taken |
| FruityRuns.RunInv | zed/src/core/fruity/fruity-client.vala:157-275 | the invariant holds after every run of connecting, querying, reading and closing |
| FruityTheorems.EveryQueryEndsOnce | zed/src/core/fruity/fruity-client.vala:225-275 | a query is outstanding, has ended exactly once or was forgotten, and only one of these; with nothing outstanding all others have ended |
| FruityTheorems.ReadEffect | zed/src/core/fruity/fruity-client.vala:240-275 | reading a message: if it cannot be had or used every outstanding query ends with -1, in order, and the loop stops; a notification changes nothing; a reply ends the first query with its tag and no other |
| FruityTheorems.ForgottenIff | zed/src/core/fruity/fruity-client.vala:188-191 | a query that has been made is neither outstanding nor ended iff it was outstanding, with the loop stopped, when an attempt to connect failed |
| FruityTheorems.StrandedThenForgotten | zed/src/core/fruity/fruity-client.vala:188-191 | a run in which the success of a mode switch leaves an ordinary query outstanding, and a failing attempt to connect then forgets it |
| FruityTheorems.CompletionCause | zed/src/core/fruity/fruity-client.vala:240-275 | a query ends with the result of a message carrying its own tag, or with -1 at a step where the read was cancelled, the stream ended or broke the framing, or the message was rejected or answered nobody; it was outstanding then |
| FruityTheorems.StoppedReadsNothing | zed/src/core/fruity/fruity-client.vala:240-241 | no byte is read while the loop is stopped, whatever is called |
| FruityTheorems.ModeSwitchHandsOver | zed/src/core/fruity/fruity-client.vala:269-274 | after the successful mode-switch reply the loop has taken exactly the messages up to it, whatever the earlier traffic, and never takes a byte of the rest |
| FruityTheorems.StopsIffLastModeSwitchSucceeds | zed/src/core/fruity/fruity-client.vala:228-229 | a reply stops the loop iff it is the success of the most recent mode-switch query; a refusal leaves it running |
| FruityTheorems.OverlappingModeSwitches | zed/src/core/fruity/fruity-client.vala:228-229 | a run in which the first of two overlapping mode switches succeeds and the loop goes on reading |
| FruityTheorems.ModeSwitchStrandsOthers | zed/src/core/fruity/fruity-client.vala:269-271 | after a successful mode switch all queries have ended iff it was the only one; the others stay outstanding until the client is connected again |
| FruityTheorems.CancelledIffClosed | zed/src/core/fruity/fruity-client.vala:197-203 | the input is cancelled iff the client was closed at some step while processing messages, and for good |
| FruityTheorems.ReconnectWorksIff | zed/src/core/fruity/fruity-client.vala:319-336 | a stopped client that connects again takes the first message of the new stream iff it was never so closed and the message is one it can use; otherwise the first read fails everything |
| FruityTheorems.ClosedClientFailsToReconnect | zed/src/core/fruity/fruity-client.vala:197-223 | a run in which a closed client fails on a stream that a new one reads |
| FruityDispatch.ResultV1 | zed/src/core/fruity/fruity-client.vala:32-38 | a version-0 message is a result iff it has type 1 and four bytes, which are the signed number, and a notification iff it has type 4 and four bytes or more or type 5 and four; everything else is refused |
| FruityDispatch.WrittenIsHeldIff | zed/src/core/fruity/fruity-client.vala:91-92 | a body written by this program is read as its list, signs aside, iff all keys and strings are non-empty and markup-free |
| FruityDispatch.ResultV2 | zed/src/core/fruity/fruity-client.vala:85-96 | a version-1 reply is the result that its property list holds, as the `int` of its low 32 bits, however its XML is laid out and whatever else is in the list |
| FruityDispatch.AttachedIdRecovered | zed/src/core/fruity/fruity-client.vala:97-101 | every 32-bit device id in an Attached list arrives with the serial number, however its XML is laid out and whatever else is in the list: the cast to `uint` recovers what the parser makes a negative `int` |
| FruityDispatch.DetachedIdRecovered | zed/src/core/fruity/fruity-client.vala:102-104 | every 32-bit device id in a Detached list arrives, in the same generality |
| FruityDispatch.TakenV2Iff | zed/src/core/fruity/fruity-client.vala:85-108 | which version-1 messages are results and which notifications, by the keys of the list that is read in them; everything else is refused |
| FruityDispatch.UnreadableIsRefused | zed/src/core/fruity/fruity-client.vala:86-92 | a message of another type, without a body or with one that cannot be parsed is refused |
| Linjector.Process.Poke | zed/src/core/linux/linjector-glue.c:576 | writes eight bytes, or fails and changes nothing |
| Linjector.Process.RemoteWrite | zed/src/core/linux/linjector-glue.c:562-601 | the two-part loop succeeds iff every word up to the rounded-up end can be poked; otherwise it has poked exactly the words before the first that cannot |
| Linjector.Process.PokeTail | zed/src/core/linux/linjector-glue.c:583-592 | after the whole words, the write succeeds iff the last, partial word can be poked too, if there is one |
| Linjector.WordRoundTrip | zed/src/core/linux/linjector-glue.c:576 | a word's bytes survive being passed as a number |
| Linjector.WriteEffect | zed/src/core/linux/linjector-glue.c:562-601 | in the poked words every byte up to the data's end is the data's, and every byte outside them is as before, also after a failure |
| Linjector.WriteSuccess | zed/src/core/linux/linjector-glue.c:562-601 | a successful write makes [address, address + size) equal the data and changes nothing outside that range rounded up to whole words |
| Linjector.WordSearch | zed/src/core/linux/linjector-glue.c:786-816 | searching a word at a time finds what searching its bytes one by one finds |
| Linjector.LowestInt3IsLowest | zed/src/core/linux/linjector-glue.c:786-816 | the byte-wise search gives the lowest address holding 0xcc, and nothing iff there is none |
| Linjector.LandingStripSearch.FindInt3 | zed/src/core/linux/linjector-glue.c:799-812 | the shift-and-mask loop finds the first 0xcc byte of a word, or runs through all eight |
| Linjector.LandingStripSearch.ExamineRange | zed/src/core/linux/linjector-glue.c:777-819 | the result is the lowest 0xcc address in the searched part of the range: its readable whole words, without a first word that begins with 0xcc at address 0, which reads as nothing found; the enumeration goes on iff there is none |
| Linjector.LandingStripSearch.Find | zed/src/core/linux/linjector-glue.c:764-775 | the result is the first hit in enumeration order, and null iff there is none |
| Linjector.FirstHitIsFirst | zed/src/core/linux/linjector-glue.c:764-819 | a hit is a 0xcc with none searched below it in its range and none in earlier ranges; nothing is found iff none is searched, which is said of the bytes: whole words of the range up to the first that cannot be read |
| ResourceArrays.ReadHexByte | zed/tools/resource-compiler.vala:370-374 | a C reader takes the four characters written for a byte as that byte |
| ResourceArrays.AppendChunk | zed/tools/resource-compiler.vala:284-300 | after any chunk the text ends in one white-space character, and reads as all bytes so far with or without it |
| ResourceArrays.SerializeToCArray | zed/tools/resource-compiler.vala:272-306 | however the file is cut into reads, the emitted initializer reads as exactly its bytes and one zero |
| ResourceLookup.BasenameOfBuilt | zed/tools/resource-compiler.vala:50 | the base name of a built path is the file name it was built from |
| ResourceLookup.BeforePrefix | zed/tools/resource-compiler.vala:56 | a shared directory prefix does not change how two paths compare |
| ResourceLookup.TableIsSorted | zed/tools/resource-compiler.vala:184-197 | sorting the full paths of one directory orders the table by base name |
| ResourceLookup.TableIsComplete | zed/tools/resource-compiler.vala:41-56 | the table has an entry of a name iff the category has a file of that name |
| ResourceLookup.BinarySearch | zed/tools/resource-compiler.vala:118-132 | on a table ordered by the comparator, the search finds an equal entry iff there is one |
| ResourceLookup.FindByName | zed/tools/resource-compiler.vala:233-245 | the generated function finds an entry, and then one of that name, iff the category contains a file of that name |
| SignalListeners.SignalObject.On | zed/bindings/pyfrida/pyfrida.c:300-326 | refuses other signals; otherwise appends the callback with a new reference, and connects the native handler if the list was empty |
| SignalListeners.SignalObject.Off | zed/bindings/pyfrida/pyfrida.c:328-365 | refuses other signals and unknown callbacks; otherwise takes off the first occurrence with its reference, and disconnects if the list is then empty |
| SignalListeners.SignalObject.Dealloc | zed/bindings/pyfrida/pyfrida.c:245-263 | disconnects and releases every listener, leaving only what emissions under way hold |
| SignalListeners.SignalObject.HandleSignal | zed/bindings/pyfrida/pyfrida.c:367-394 | calls, in order, exactly the listeners there were at its start, whatever these do to the list or the object; all references it took are released, and the state is what their doings make it |
| SignalListeners.OffUndoesOn | zed/bindings/pyfrida/pyfrida.c:300-365 | taking off what was just put on restores references, connection and multiplicities always, and the order iff only copies follow the callback's first occurrence |
| SignalRuns.NextCallsInv | zed/bindings/pyfrida/pyfrida.c:367-394 | every step keeps the calls of each emission the part of its copy it has gone through |
| SignalRuns.NextRefsInv | zed/bindings/pyfrida/pyfrida.c:519-621 | every step keeps references equal to list plus open copies, and the handler connected once iff the list is non-empty |
| SignalRuns.RunInv | zed/bindings/pyfrida/pyfrida.c:430-448 | both hold after every interleaving of on, off, signals, calls and deallocation |
| SignalRuns.ConnectedIffListening | zed/bindings/pyfrida/pyfrida.c:309-316 | raising the native signal runs the handler exactly once if there are listeners, and not at all otherwise |
| SignalRuns.SnapshotAtBegin | zed/bindings/pyfrida/pyfrida.c:376-377 | what an emission calls is fixed as the listeners at its start, whatever happens later in the run |
| SignalRuns.EmissionCalls | zed/bindings/pyfrida/pyfrida.c:379-388 | an emission calls its copy in order, and all of it by the time it is done |
| SignalRuns.HeldUntilCalled | zed/bindings/pyfrida/pyfrida.c:376-390 | a callback still to be called is referenced, even if taken off the list or after the object is gone |
| SignalRuns.ReferencesBalance | zed/bindings/pyfrida/pyfrida.c:245-263 | with no emission open the references are those of the list, and none after deallocation |
| SignalRuns.NeverOverReleased | zed/bindings/pyfrida/pyfrida.c:328-394 | no step drops a reference that is not held |
| SignalRuns.NextListeners | zed/bindings/pyfrida/pyfrida.c:301-366 | who listens: those put on, in order, without the first occurrence of each taken off, and nobody once the object is gone |
| SignalRuns.FinishEmission | zed/bindings/pyfrida/pyfrida.c:376-394 | an emission can always be finished by its own steps, and then gives back the references it held |
| ProcessEnumerators.ProcessEnumerator.Ask | zed/src/core/system.vala:11-25 | a request joins the pending ones, and starts a worker iff it is the first |
| ProcessEnumerators.ProcessEnumerator.Deliver | zed/src/core/system.vala:33-44 | each request taken completes with the list, in order, and what the completions ask for anew waits for the next worker |
| ProcessEnumerators.OneWorkerForReentrantRequests | zed/src/core/system.vala:33-44 | the requests issued by a batch's completions wait together, in order, for exactly one new worker, or none if there are none |
| EnumeratorRuns.NextPlaces | zed/src/core/system.vala:11-45 | every step keeps each request in as many places as before; only asking adds one |
| EnumeratorRuns.RunInv | zed/src/core/system.vala:11-45 | after every run the worker, the context and the lists due are as the theorems below say |
| EnumeratorRuns.OneWorkerWhilePending | zed/src/core/system.vala:11-25 | never two workers, and one iff requests are pending; the context is set as long |
| EnumeratorRuns.CompletedAtMostOnce | zed/src/core/system.vala:60-63 | no request completes twice |
| EnumeratorRuns.DrainedMeansCompleted | zed/src/core/system.vala:33-44 | with no worker out and every batch done, each request has completed exactly once |
| EnumeratorRuns.ServedTogether | zed/src/core/system.vala:27-45 | requests pending together can only complete with one and the same list, whatever happens later: the one waiting for delivery or, if the worker still runs, the next one made |
| EnumeratorRuns.ListWasEnumerated | zed/src/core/system.vala:30-33 | the lists are those that workers made, in that order |
| EnumeratorRuns.FreshIff | zed/src/core/system.vala:11-45 | the list a request completes with is no older than the request iff no list was waiting for delivery when it was made; otherwise it is the one that was waiting |
| EnumeratorRuns.ListOlderThanRequest | zed/src/core/system.vala:27-45 | a run in which a request completes with a list made before it |
| OffsideLexer.Preprocess | org.boblycat.frida.ui/src/java/org/boblycat/frida/ui/OffsideRuleLexer.java:30-80 | the loop writes the specified output and reports the specified errors; it runs past its buffer iff the indentation asks for more outdents than the input has characters, and divides by zero iff the tab width is 0 and some indentation is looked at |
| OffsideLexer.ReadCharacter | org.boblycat.frida.ui/src/java/org/boblycat/frida/ui/OffsideRuleLexer.java:40-77 | one turn of that loop: the counters advance, and the character is written behind the outdents due before it |
| OffsideText.CountersOf | org.boblycat.frida.ui/src/java/org/boblycat/frida/ui/OffsideRuleLexer.java:34-78 | after any prefix the counters are what the text says: the width of the blanks and tabs that its last line begins with, one tab more than the indentation of the line of the last colon, the line and the column, and whether the line has an ordinary character yet |
| OffsideText.OutputOf | org.boblycat.frida.ui/src/java/org/boblycat/frida/ui/OffsideRuleLexer.java:34-78 | each character is written behind as many outdents as its line is short of in whole tabs, if it is the first ordinary one of a line but the first; and such a line is an error iff it is at neither of the two indentations |
| OffsideText.LineStartIs | org.boblycat.frida.ui/src/java/org/boblycat/frida/ui/OffsideRuleLexer.java:52-57 | the last line begins behind the last line break |
| OffsideText.IndentEndIs | org.boblycat.frida.ui/src/java/org/boblycat/frida/ui/OffsideRuleLexer.java:40-64 | an indentation ends at the first character that is no blank, tab, colon or line break |
| OffsideLexer.OutputLength | org.boblycat.frida.ui/src/java/org/boblycat/frida/ui/OffsideRuleLexer.java:31-78 | the output has as many characters as the input and the outdents that its indentation asks for |
| OffsideLexer.OutputIsInput | org.boblycat.frida.ui/src/java/org/boblycat/frida/ui/OffsideRuleLexer.java:39-78 | for every input and tab width, the output without what was inserted is the input |
| OffsideLexer.OnlyOutdentsInserted | org.boblycat.frida.ui/src/java/org/boblycat/frida/ui/OffsideRuleLexer.java:71-72 | everything inserted is an outdent character |
| OffsideLexer.ShallowOutdents | org.boblycat.frida.ui/src/java/org/boblycat/frida/ui/OffsideRuleLexer.java:64-73 | a line less than two tabs short of what is expected gets one outdent if it is a tab short and none otherwise, error or not |
| OffsideLexer.OverIndented | org.boblycat.frida.ui/src/java/org/boblycat/frida/ui/OffsideRuleLexer.java:66-72 | a line deeper than expected is an error and gets no outdent |
| OffsideLexer.WellIndentedIsShallow | org.boblycat.frida.ui/src/java/org/boblycat/frida/ui/OffsideRuleLexer.java:66-68 | an input that raises no error has no line two tabs short |
| OffsideLexer.OneOutdentPerLine | org.boblycat.frida.ui/src/java/org/boblycat/frida/ui/OffsideRuleLexer.java:52-73 | if no line starts two tabs or more short of what is expected, the outdents number at most the newlines seen |
| OffsideLexer.FitsIff | org.boblycat.frida.ui/src/java/org/boblycat/frida/ui/OffsideRuleLexer.java:31 | the buffer suffices iff the indentation of the input asks for no more outdents than it has characters; always if no line starts two tabs or more short, and so without errors |
| OffsideLexer.BadIndentationOverflows | org.boblycat.frida.ui/src/java/org/boblycat/frida/ui/OffsideRuleLexer.java:66-72 | an input of twelve characters whose output has twenty-seven |
| ElfLoader.ELFStreamReader.ReadE32Half | org.boblycat.frida.plugin.loader.elf/src/org/boblycat/frida/plugin/loader/elf/ELFStreamReader.java:34-38 | reads the signed little-endian half-word at the position reached |
| ElfLoader.ELFStreamReader.ReadE32Word | org.boblycat.frida.plugin.loader.elf/src/org/boblycat/frida/plugin/loader/elf/ELFStreamReader.java:40-47 | reads the signed little-endian word at the position reached |
| ElfLoader.ELFStreamReader.ReadUChar | org.boblycat.frida.plugin.loader.elf/src/org/boblycat/frida/plugin/loader/elf/ELFStreamReader.java:25-31 | the loop reads the next `n` signed bytes |
| ElfLoader.ELFStreamReader.SkipTo | org.boblycat.frida.plugin.loader.elf/src/org/boblycat/frida/plugin/loader/elf/ELFStreamReader.java:62-65 | reads on to the offset asked for, and nothing if that has been passed |
| ElfLoader.ELFStreamReader.ReadHeader | org.boblycat.frida.plugin.loader.elf/src/org/boblycat/frida/plugin/loader/elf/ELFHeader.java:139-156 | the fourteen reads give the fields at the offsets of System V ABI chapter 4 and end at offset 52 |
| ElfLoader.ELFStreamReader.ReadProgramHeader | org.boblycat.frida.plugin.loader.elf/src/org/boblycat/frida/plugin/loader/elf/ProgramHeader.java:49-60 | the eight reads give the fields of System V ABI chapter 5 at the position reached |
| ElfLoader.ELFStreamReader.ReadTable | org.boblycat.frida.plugin.loader.elf/src/org/boblycat/frida/plugin/loader/elf/ELFFile.java:25-27 | the loop fills the array with consecutive 32-byte entries |
| ElfLoader.HeaderFields | org.boblycat.frida.plugin.loader.elf/src/org/boblycat/frida/plugin/loader/elf/ELFHeader.java:139-156 | every header field is the little-endian number of its width at its place in the table of System V ABI chapter 4 |
| ElfLoader.ProgramHeaderFields | org.boblycat.frida.plugin.loader.elf/src/org/boblycat/frida/plugin/loader/elf/ProgramHeader.java:49-60 | and every program header field at its place in that of chapter 5 |
| ElfLoader.ELFFile.LoadFromStream | org.boblycat.frida.plugin.loader.elf/src/org/boblycat/frida/plugin/loader/elf/ELFFile.java:20-30 | for every image, the header and every entry are what random access finds at 0 and at max(52, phoff) + 32 i, and it fails iff the signed count is negative; if the table is in reach it succeeds, every entry is the one at the place the unsigned fields give, and the final offset is the end of the table iff that is below 2^31 |
| ElfLoader.LoadsTheTableIff | org.boblycat.frida.plugin.loader.elf/src/org/boblycat/frida/plugin/loader/elf/ELFFile.java:24-27 | every entry is taken from where the unsigned fields put it iff the table is empty, or 52 <= phoff < 2^31, phnum < 2^15 and the entries have 32 bytes or there is only one |
| ElfLoader.PrintedEnd | org.boblycat.frida.plugin.loader.elf/src/org/boblycat/frida/plugin/loader/elf/ELFFile.java:28 | for a table in reach with 32-byte entries the printed offset is the end that the unsigned fields give, as an `int`, and so that end itself iff it is below 2^31 |
| ElfLoader.TableInsideHeaderIsMissed | org.boblycat.frida.plugin.loader.elf/src/org/boblycat/frida/plugin/loader/elf/ELFFile.java:24 | an image whose table starts inside the header and is not what the loader reads |
| ElfLoader.HeaderRoundTrip | org.boblycat.frida.plugin.loader.elf/src/org/boblycat/frida/plugin/loader/elf/ELFHeader.java:139-156 | every header laid out field by field reads back as it was |
| ElfLoader.FileRoundTrip | org.boblycat.frida.plugin.loader.elf/src/org/boblycat/frida/plugin/loader/elf/ELFFile.java:20-30 | every header and table written as the format says, with anything between and after them, is what the loader's positions hold |

## Left out

- WinIpc notifications (`emit`, `add_notify_handler`), GVariant serialisation and the pipe operations: one-way calls and library code; messages under way are values in a multiset, so any order of delivery is allowed.
- WinIpc queries that wait forever: a closed or broken pipe leaves pending queries waiting, as in the source; no timeout is modelled.
- Resumption inside `complete`: a resumed WinIpc query acts as a separate step, which `ResumedQueryMayAskAgain` justifies for further queries; closing the proxy from a resumed query is such a step too.
- GMarkup: only tags, text runs, declarations, comments and CDATA sections; attributes are not looked at and a `>` inside one or inside a document type's subset is not handled; which entity references resolve is a parameter, and the proofs hold for every table; UTF-8 validation is not part of the model.
- PropertyListForeign.ReadDocument: the items do not include arrays with elements in them, of which only the dictionary of `DictInArray` is described, nor an empty element with nothing at all between it and the next key.
- Child property lists are values: a child is put into its parent when it is closed, or at the end of the document if it never is, where the source shares one object from its start; nothing reads the parent in between.
- int.parse is C's `atoi` through a 64-bit `long`, so only its low 32 bits are kept; property list keys and strings are sequences of characters.
- CloudSpy promise: JavaScript calls, the `state` method and invalid arguments; re-entrant registration is an interleaved step, and the mutex is the atomicity of the steps.
- FruityClient.FruityClient.Query: the message goes out in one write; the source's loop for partial writes sends from offset 0 again, so what it sends then is not modelled.
- A `close` from inside a handler of `device_attached` or `device_detached`: it ends the loop without another read, so pending queries are then not failed; in the model a `close` comes while the loop waits, and the cancelled read fails them.
- FruityClient.FruityClient.Close: models the half of `close` up to its first suspension; the second half, which closes the connection and drops the streams when the loop is idle, is left out.
- Fruity completions do not call back into the client while a message is being dispatched; a query made on completion is a later step.
- FruityDispatch.ResultV2: faults that the property list parser does not report as `IOError` (a null key) count as rejected messages; a body's bytes are its characters.
- FruityDispatch.AttachedIdRecovered: a foreign layout of a list's XML enters as what the parser reads from it, which `PropertyListForeign.ReadDocument` gives; of version-0 notifications only acceptance is modelled, and no device request is ever parsed by this program.
- Linux injector: thread and library injection, register set-up and ARM; a 32-bit process, whose words have 4 bytes while the scan still looks at 8, is not modelled.
- Resource compiler: configuration, identifiers, the assembler output and file replacement; Gee's sort and C's bsearch are modelled by what they are documented to do, and file names contain no slash.
- Python listeners: the arguments built for a message, results and exceptions of callbacks, and references held by anybody else; sessions and scripts share one class, as their code differs only in the signal's name.
- Process enumerator: errors of thread creation and enumeration itself; a list is an opaque value.
- OffsideLexer.Preprocess: integers are unbounded, so an input of 2^30 characters or more is not modelled as Java treats it; console output and the callback's answer, which the source ignores, are left out.
- ELF loader: exceptions of the stream, the header's accessors, descriptions and dump; past the end an image reads as 255s, as in the source, and nothing says so to the caller.
- Session managers, device maps, the Fruity backend, zed-server, script engine, print utilities, plugins, web application and user interface: they suspend between check and update or only forward, and would add easy members.
