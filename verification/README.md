# Natural voice adapter: a verified model

A Dafny model of the parts of the adapter that decide what a listener hears and what an application is told:
the translation of SAPI text fragments into SSML, the way back from SSML offsets to source offsets, the simulated
bookmark events, the search for words, the merging of audio with timed events, the connection pool, the blocking
queue between network and playback, and four small components (proxy patterns, data key enumeration, MP3 buffering,
string tokens).

## How the model is laid out

| file | what it holds |
|---|---|
| Numbers, Sorting, WideText | minimum, maximum and clamping; insertion by key; characters, ASCII case folding, escaping of the five predefined entities |
| XmlReader | a streaming XML reader, written without regard to the translator; the judge of what a document says |
| SsmlBuilder | the translation as a pure state transformer, branch by branch |
| SsmlReading | the raw string always reads as the events recorded beside it |
| SsmlNesting, SsmlText, SsmlSayAs, SsmlStyle, EdgeLimits | theorems about every translation, on the events the reader finds |
| SsmlTags, SsmlPlaces | the raw tags of a document as the reader meets them, and the elements around every place |
| SsmlAttributes, SsmlElements, SsmlMarks | a reader of attributes and numbers, and what the tags around and between the texts say |
| SsmlSloppy, SsmlExamples | inputs for which the translation falls short, and exactly when |
| OffsetMap, SsmlOffsets, SpanEnds, FarSpans | mapping offsets back, and the round trips |
| Bookmarks, WordReports, TtsEngine | bookmark simulation; what is told of words; the engine object, whose methods update its fields in place |
| WordFinder, SpokenWords | the word search, and why it finds the words of a translation |
| WaveMerge | audio and events, for any chunking, event arrivals and short writes |
| ConnectionPool, BlockingQueue | transition systems with their invariants over every run, and the objects |
| Wildcard, Overlay, Mp3Buffer, Tokenizer | the small components |

The translator, the engine's mapping and event methods, the event merger, the pool, the queue, the MP3 buffer and the
token iterators are classes with loops and in-place updates; each of their methods is proved equal to a specification
function, and the theorems are about those functions over all inputs or all runs.

## Assumptions

* The locale, the voice name and the context categories hold no angle bracket; they are copied raw.
* For voices other than Edge voices an unknown tag is one XML tag, possibly with whitespace after it
  (`SsmlReading.OneTag`). Everything else about tags is arbitrary: order, matching, closing, letter case.
* Offset theorems take fragments in source order with disjoint source ranges, and all sums below 2^32
  (`SsmlOffsets.Ordered`, `SsmlOffsets.Fits`). `MapTextOffset` and `OnBoundary` themselves are modelled with 32-bit
  wrap-around.
* Where a theorem says so (`FarSpans.Whole`), a spoken text is not empty and holds no NUL, at which its copy stops.
* `minCount <= maxCount` in the pool; one consumer at the queue.

## Where the code falls short

* Element names are matched ignoring case, so `<B>…</b>` is emitted as it stands: the document is balanced for a
  reader that compares names exactly if and only if no accepted end tag differs in case from the tag it closes
  (`SsmlNesting.TranslationBalanced`, `SsmlExamples.CaseMatters`).
* The comment at TTSEngine.cpp:999-1002 says an unknown tag may have trailing spaces. A bare `<name>` with whitespace
  after it is stored untrimmed, closed as `</name>>`, and the extra `>` is spoken. The spoken text survives if and
  only if there is no such tag (`SsmlSloppy.TextSurvives`, `SsmlExamples.GtIsSpoken`).
* A span that ends with its fragment and holds escaped characters maps back exactly if and only if no later fragment
  from further on in the source is copied right behind it (`SpanEnds.RoundTripToEnd`, `SsmlExamples.GapIsSwallowed`).
* The comment at TTSEngine.cpp:1202-1206 includes bookmarks inside a word in the word. For a word cut once this holds
  (`FarSpans.RoundTripAcross`). For one cut more often it fails exactly when the word's length in SSML does not reach
  beyond the source end of the last piece but one, with a gap in the source behind that piece, nothing written right
  before the last piece and nothing in it escaped (`FarSpans.RoundTripFar`, `SsmlExamples.SecondCutIsLost`).
* Dropping a dead connection that is put back frees a place in the pool without waking a waiting taker
  (`ConnectionPool.SilentRelease`, `ConnectionPool.StrandedTaker`).

## Model

| member | source | states |
|---|---|---|
| SsmlReading.TranslationReads | NaturalVoiceSAPIAdapter/TTSEngine.cpp:803-1142 | for every fragment list the raw SSML string, read character by character, is one `speak` element around exactly the recorded tags and decoded characters |
| SsmlReading.TagKinds | NaturalVoiceSAPIAdapter/TTSEngine.cpp:767-800 | the tag helpers tell opening, closing and empty-element tags apart as an XML reader does, and extract the closing name it reads |
| SsmlReading.StoredName | NaturalVoiceSAPIAdapter/TTSEngine.cpp:767-775 | the name taken from a stored opening tag is the element's name, except that a `>` is added exactly for a bare name with whitespace after the tag |
| SsmlNesting.RunNests | NaturalVoiceSAPIAdapter/TTSEngine.cpp:856-1132 | at every turn of the loop the open elements are exactly voice, prosody, emphasis, the custom tags in order and say-as, as the flags say, and after the last fragment none but voice |
| SsmlNesting.TranslationBalanced | NaturalVoiceSAPIAdapter/TTSEngine.cpp:803-1142 | the finished document is balanced whatever the order, matching or closing of custom tags; with exact names, if and only if no end tag is spelled with other letter case than the open tag it closes, told from the fragment texts alone |
| SsmlNesting.RunTags | NaturalVoiceSAPIAdapter/TTSEngine.cpp:997-1054 | the tags the translator has stored are those the fragments' texts leave open |
| SsmlExamples.CaseMatters | NaturalVoiceSAPIAdapter/TTSEngine.cpp:1017-1036 | a concrete input balanced only when letter case is ignored |
| SsmlText.TranslationText | NaturalVoiceSAPIAdapter/TTSEngine.cpp:856-1056 | markup removed and entities decoded, the document says the Speak, SpellOut and Pronounce texts in order with at most one space added between neighbours |
| SsmlSloppy.TextSurvives | NaturalVoiceSAPIAdapter/TTSEngine.cpp:997-1054 | whitespace aside, the spoken text is preserved if and only if no bare-name opening tag has whitespace after it |
| SsmlExamples.GtIsSpoken | NaturalVoiceSAPIAdapter/TTSEngine.cpp:1043-1047 | a concrete input for which a character is spoken that is in no fragment |
| SsmlSayAs.SayAsHoldsText | NaturalVoiceSAPIAdapter/TTSEngine.cpp:914-1109 | in the finished document every say-as the translator makes, for a context or to spell out, is followed by nothing but characters up to its end tag (SSML 1.0 section 3.1.8); without unknown tags of that name that is every say-as there is |
| SsmlSayAs.SayAsElement | NaturalVoiceSAPIAdapter/TTSEngine.cpp:1105-1109 | when a context's say-as is closed, what was written since its start tag is characters and its end tag comes next |
| SsmlSayAs.TranslationHasText | NaturalVoiceSAPIAdapter/TTSEngine.cpp:858-859 | the result says there is something to speak if and only if some fragment other than a bookmark has text |
| SsmlMarks.BookmarkMarks | NaturalVoiceSAPIAdapter/TTSEngine.cpp:971-974 | for a voice that is no Edge voice the bookmark elements of the document, in order, are those of the text's bookmarks with their escaped names as marks, when no unknown tag is one |
| SsmlMarks.MarkDecodes | NaturalVoiceSAPIAdapter/TTSEngine.cpp:646-669 | an XML reader decodes such a mark to the bookmark's name |
| SsmlStyle.InOwnStyle | NaturalVoiceSAPIAdapter/TTSEngine.cpp:861-1131 | while a fragment is written for a non-Edge voice, prosody, emphasis and say-as are open exactly if it asks for them, and the prosody and context tags kept open were written for a fragment asking for the same |
| SsmlStyle.EdgeInOwnProsody | NaturalVoiceSAPIAdapter/TTSEngine.cpp:850-898 | for Edge voices every text is in its own prosody as long as two prosody elements have not been opened before it |
| SsmlStyle.KeptOpen | NaturalVoiceSAPIAdapter/TTSEngine.cpp:1058-1131 | for a voice that is no Edge voice, between two fragments prosody, emphasis, custom tags and say-as stay open exactly if both ask for the same and nothing outside has to be closed |
| SsmlStyle.EdgeKeptOpen | NaturalVoiceSAPIAdapter/TTSEngine.cpp:1061-1080 | for Edge voices prosody stays open exactly if the next fragment to be spoken asks for the same, or two have been opened |
| SsmlElements.ProsodyWhenAsked | NaturalVoiceSAPIAdapter/TTSEngine.cpp:864-898 | prosody is open around a text if and only if the volume product is below 10000, the rates do not cancel or the pitch is changed; for Edge voices while fewer than two have been opened |
| SsmlElements.ProsodyReads | NaturalVoiceSAPIAdapter/TTSEngine.cpp:870-897 | read back from the tag, volume, rate and pitch are there exactly if changed and are the change in whole percent: the product in hundredths, twenty percent a step up and a third of that down, five percent a step, at most ten steps |
| SsmlElements.ContextReads | NaturalVoiceSAPIAdapter/TTSEngine.cpp:692-725 | read back from the tag, the attributes are those of the context category: a date with its format, cardinal, fraction, telephone, or the category itself |
| SsmlElements.TextPlaced | NaturalVoiceSAPIAdapter/TTSEngine.cpp:803-995 | every spoken text stands in the finished document inside exactly these elements, outermost first: root in the locale, voice, prosody, emphasis, the unknown tags left open before it, context, its own say-as or phoneme; each there only if asked for and saying, read back from the raw tag, what is asked for |
| SsmlPlaces.WrittenInside | NaturalVoiceSAPIAdapter/TTSEngine.cpp:856-1132 | at every turn the start tags still open in the raw document are those of the root, the voice, the prosody of the fragment it was opened for, emphasis, the stored tags and the say-as of its fragment |
| SsmlMarks.EmptyElements | NaturalVoiceSAPIAdapter/TTSEngine.cpp:965-1012 | for a voice that is no Edge voice the empty elements of the document, in order, are a break of the given milliseconds for every silence, a bookmark for every bookmark and every unknown tag that is one, as it stands |
| EdgeLimits.RunWithinLimit | NaturalVoiceSAPIAdapter/TTSEngine.cpp:1058-1131 | at most two prosody elements are opened, and once there are two prosody stays open while a speakable fragment remains |
| EdgeLimits.EdgeTranslation | NaturalVoiceSAPIAdapter/TTSEngine.cpp:823-898 | an Edge document has no elements but speak, voice and at most two prosody, each starting with text when every speakable fragment has some |
| SsmlOffsets.TranslationSorted | NaturalVoiceSAPIAdapter/TTSEngine.cpp:937-949 | the mapping list is non-decreasing in both components |
| SsmlOffsets.SpokenFound | NaturalVoiceSAPIAdapter/TTSEngine.cpp:937-942 | every spoken fragment's escaped text stands in the final document at its recorded place, its start, entity and end mappings consecutive in the final list |
| SsmlOffsets.EndsMapped | NaturalVoiceSAPIAdapter/TTSEngine.cpp:937-942 | both ends of a spoken source range are mapped to the ends of its copy, even when that stops at a NUL |
| SsmlOffsets.MarkFound | NaturalVoiceSAPIAdapter/TTSEngine.cpp:971-974 | the escaped name of every bookmark stands in its element, and what follows each entity in it is mapped |
| SsmlOffsets.RoundTripInside | NaturalVoiceSAPIAdapter/TTSEngine.cpp:1161-1222 | the image of any non-empty span ending strictly inside its fragment maps back to exactly its source offset and length |
| SpanEnds.RoundTripToEnd | NaturalVoiceSAPIAdapter/TTSEngine.cpp:1189-1221 | a span ending with its fragment maps back exactly if and only if it has no escapes or no later fragment from further on in the source is copied right behind it |
| SpanEnds.EndBeforeNeighbour | NaturalVoiceSAPIAdapter/TTSEngine.cpp:927-963 | for neighbours in one style, of any voice, the same told from the fragments alone: exact if and only if there are no escapes or a space is needed between them |
| SpanEnds.Neighbours | NaturalVoiceSAPIAdapter/TTSEngine.cpp:937-963 | between two such neighbours, for Edge voices also with unspoken fragments between them, at most the space is written |
| SsmlExamples.GapIsSwallowed | NaturalVoiceSAPIAdapter/TTSEngine.cpp:1210-1221 | a concrete input whose first word is reported ten characters long instead of two |
| FarSpans.RoundTripAcross | NaturalVoiceSAPIAdapter/TTSEngine.cpp:1197-1221 | a span from one spoken fragment to strictly inside the next maps back to the source range between its ends, bookmarks included |
| FarSpans.RoundTripFar | NaturalVoiceSAPIAdapter/TTSEngine.cpp:1202-1221 | a span to strictly inside any later spoken fragment maps back exactly if and only if it has an escape in that fragment, or something is written right before it, or its SSML length reaches beyond the source end of what was spoken before it, or that is where the fragment begins; otherwise its end is measured from there |
| FarSpans.RoundTripToLaterEnd | NaturalVoiceSAPIAdapter/TTSEngine.cpp:1189-1221 | a span to the end of the same or any later fragment maps back exactly if and only if its source range is at least as long as its image or no later fragment from further on in the source is copied right behind it |
| SsmlExamples.SecondCutIsLost | NaturalVoiceSAPIAdapter/TTSEngine.cpp:1202-1214 | a concrete word cut by two bookmarks that is told to be 22 characters long instead of 42 |
| OffsetMap.SpanToEnd | NaturalVoiceSAPIAdapter/TTSEngine.cpp:1210-1215 | the tie-break at one SSML offset, on any sorted list holding a fragment's mappings |
| OffsetMap.InOneMapping | NaturalVoiceSAPIAdapter/TTSEngine.cpp:1161-1196 | a span no further mapping cuts keeps its length and its distance from the mapping, but is never told below zero |
| OffsetMap.ToldFits | NaturalVoiceSAPIAdapter/TTSEngine.cpp:1161-1222 | what is told fits 32 bits |
| OffsetMap.WrappedEnd | NaturalVoiceSAPIAdapter/TTSEngine.cpp:1161-1222 | a span that ends beyond 32 bits is told with its own length |
| TtsEngine.Engine.AppendTextFragToSsml | NaturalVoiceSAPIAdapter/TTSEngine.cpp:646-669 | appends the escaped text up to its first NUL and one mapping after every entity |
| TtsEngine.Engine.ReopenCustomTags | NaturalVoiceSAPIAdapter/TTSEngine.cpp:906-912 | the stored tags are written again, outermost first, when they are closed |
| TtsEngine.Engine.WriteBookmark | NaturalVoiceSAPIAdapter/TTSEngine.cpp:945-977 | an Edge voice only marks the position before the bookmark; others get an element; both list it |
| TtsEngine.Engine.WriteSpoken | NaturalVoiceSAPIAdapter/TTSEngine.cpp:934-995 | a spoken text is led in, copied between its start and end mappings and led out, for both kinds of voice |
| TtsEngine.Engine.BuildSsml | NaturalVoiceSAPIAdapter/TTSEngine.cpp:803-1142 | the loops over fragments and tags produce exactly the specified document, mappings, bookmarks and result, and for ordered fragments a sorted list |
| TtsEngine.Engine.WriteTag | NaturalVoiceSAPIAdapter/TTSEngine.cpp:997-1054 | unknown tags are copied, matched ignoring case from the innermost, and unclosed inner ones closed first |
| TtsEngine.Engine.CloseTagsDownTo | NaturalVoiceSAPIAdapter/TTSEngine.cpp:1105-1131 | closes from the inside what is not to be preserved |
| TtsEngine.Engine.FindLevel | NaturalVoiceSAPIAdapter/TTSEngine.cpp:1058-1103 | the look-ahead over fragments an Edge voice ignores finds the level the specification preserves |
| TtsEngine.Engine.MapTextOffset | NaturalVoiceSAPIAdapter/TTSEngine.cpp:1161-1222 | result and final cached index equal those of a plain scan, whatever index was cached |
| TtsEngine.Engine.OnBoundary | NaturalVoiceSAPIAdapter/TTSEngine.cpp:548-575 | one boundary event with the mapped span, then the bookmarks before the word's end, in order, at the same stream offset |
| TtsEngine.Engine.TriggerBookmarks | NaturalVoiceSAPIAdapter/TTSEngine.cpp:563-574 | the loop reports exactly the bookmarks before the word's end and moves the index past them |
| TtsEngine.Engine.FinishSimulatingBookmarkEvents | NaturalVoiceSAPIAdapter/TTSEngine.cpp:1144-1158 | reports every bookmark not yet triggered |
| TtsEngine.Engine.SpeakFragments | NaturalVoiceSAPIAdapter/TTSEngine.cpp:113-195 | over a whole speak call: a text with nothing to speak has its bookmarks told at once; an Edge speak that is not aborted, its service reporting no bookmark, has told every bookmark of the text once and in order; for other voices exactly the bookmarks the service reports are told, in its order |
| TtsEngine.Engine.OnBookmark | NaturalVoiceSAPIAdapter/TTSEngine.cpp:536-547 | a bookmark the service reports is told at its place in the stream |
| TtsEngine.WaveTicksAgree | NaturalVoiceSAPIAdapter/TTSEngine.h:190-194 | the stream offset told, less the silence put in, lies within the two-byte sample where the audio merger places that tick |
| TtsEngine.AllAtTicks | NaturalVoiceSAPIAdapter/TTSEngine.h:190-194 | over a whole speak call every event told while reports come in is told at the place in the audio of the tick of some report |
| TtsEngine.ReportedAt | NaturalVoiceSAPIAdapter/TTSEngine.cpp:536-575 | all that one report adds, its triggered bookmarks too, is told at its own place |
| WordReports.SpanTold | NaturalVoiceSAPIAdapter/TTSEngine.cpp:548-562 | a reported word or sentence that ends inside its fragment is told at its place and with its length in the source |
| WordReports.BookmarksByWords | NaturalVoiceSAPIAdapter/TTSEngine.cpp:563-574 | for an Edge voice the bookmarks told while words are spoken are exactly those before the furthest word end in the source |
| Bookmarks.ExactlyOnce | NaturalVoiceSAPIAdapter/TTSEngine.cpp:548-575 | any sequence of word and sentence boundaries followed by the final flush reports every bookmark exactly once, in text order |
| Bookmarks.PassedOn | NaturalVoiceSAPIAdapter/TTSEngine.cpp:536-547 | for a voice that is no Edge voice, over any reports, the bookmarks told are exactly those the service reports, in order |
| Bookmarks.ReachedSoFar | NaturalVoiceSAPIAdapter/TTSEngine.cpp:563-574 | at any moment the bookmarks reported are the first ones, each once and in order |
| Bookmarks.ReportedBeforeFlush | NaturalVoiceSAPIAdapter/TTSEngine.cpp:566-571 | with sorted offsets those reported before the flush are exactly those before the furthest mapped word end seen |
| Bookmarks.TranslationBookmarks | NaturalVoiceSAPIAdapter/TTSEngine.cpp:945-977 | a translation lists every bookmark fragment once in order, sorted by offset for ordered fragments |
| WordFinder.XmlEscape | NaturalVoiceSAPIAdapter/SpeechRestAPI.cpp:366-386 | the word is escaped as the text was |
| WordFinder.FindWord | NaturalVoiceSAPIAdapter/SpeechRestAPI.cpp:392-427 | returns the least position at or after the last one where the escaped word stands outside markup, none exactly when there is none, and leaves the position outside markup |
| WordFinder.GreedyComplete | NaturalVoiceSAPIAdapter/SpeechRestAPI.cpp:388-427 | if words can be placed in order at all, successive searches all succeed, none later than that placement |
| SpokenWords.WordStands | NaturalVoiceSAPIAdapter/TTSEngine.cpp:646-669 | every word of a spoken fragment stands in the document outside markup, escaped, at its image |
| SpokenWords.WordsApart | NaturalVoiceSAPIAdapter/TTSEngine.cpp:727-765 | words of different fragments never run together: the last thing an XML reader has seen before a spoken text is a tag, whitespace, or a character outside ASCII that may touch what follows; a spoken `>` only if a sloppy tag was opened |
| SpokenWords.SpaceExactly | NaturalVoiceSAPIAdapter/TTSEngine.cpp:727-765 | between the last event an XML reader has seen and a spoken text a space is put exactly when that event is a character that is no whitespace and the two are not both parts of scripts written without spaces, as told character by character |
| SpokenWords.WordsLocated | NaturalVoiceSAPIAdapter/SpeechRestAPI.cpp:388-427 | for every fragment list, words reported in reading order are all found in its document, each no later than its place |
| WaveMerge.EventBytesMonotone | NaturalVoiceSAPIAdapter/SpeechRestAPI.cpp:131-135 | block-aligned positions of later ticks never come earlier |
| WaveMerge.PositionOfTick | NaturalVoiceSAPIAdapter/SpeechRestAPI.cpp:131-135 | the position of a tick is the start of the block that its moment, tick times bytes per second over ten million, falls in |
| WaveMerge.MergeAccounts | NaturalVoiceSAPIAdapter/SpeechRestAPI.cpp:103-182 | for any write results and event arrivals the byte count rises by the chunk size, samples come out once and in order, every event is delivered or still queued, and none left is due |
| WaveMerge.ChunkIndependent | NaturalVoiceSAPIAdapter/SpeechRestAPI.cpp:103-182 | with events queued beforehand and full writes, any chunking yields the sample-by-sample merge of the whole audio |
| WaveMerge.EventPlace | NaturalVoiceSAPIAdapter/SpeechRestAPI.cpp:131-165 | an event comes out at its position, or at once when that is past |
| WaveMerge.EventOnTime | NaturalVoiceSAPIAdapter/SpeechRestAPI.cpp:131-165 | an event that had to be waited for comes out at the start of the block its tick falls in, and none comes out after that block |
| WaveMerge.DeliveredOrQueued | NaturalVoiceSAPIAdapter/SpeechRestAPI.cpp:137-154 | exactly the events positioned before the end of the audio are delivered, in order; those at or past it stay queued |
| WaveMerge.DeliveredInTime | NaturalVoiceSAPIAdapter/SpeechRestAPI.cpp:131-154 | when the audio ends with a block, exactly the events whose moment lies before its end are delivered |
| WaveMerge.MergeTimely | NaturalVoiceSAPIAdapter/SpeechRestAPI.cpp:103-182 | with full writes but events arriving at any moment, each comes out in its block, or as soon as it is there when that is past |
| WaveMerge.MergeTurns | NaturalVoiceSAPIAdapter/SpeechRestAPI.cpp:112-182 | the queue is locked once for every event delivered, once more at the end, and once more when the first event was waited for |
| Sorting.InsertAllKeeps | NaturalVoiceSAPIAdapter/SpeechRestAPI.h:42-51 | insertion by key keeps the order and loses nothing, for the event queue and the pool's oldest first |
| WaveMerge.Merger.Push | NaturalVoiceSAPIAdapter/SpeechRestAPI.cpp:304-306 | a queued event is added to the sorted queue |
| WaveMerge.SortedInOrder | NaturalVoiceSAPIAdapter/SpeechRestAPI.cpp:131-135 | a sorted queue whose products fit in 64 bits has non-decreasing byte positions |
| WaveMerge.Merger.ProcessWaveData | NaturalVoiceSAPIAdapter/SpeechRestAPI.cpp:103-182 | the loop ends and leaves bytes, queue and output as the specification and, undisturbed, as the plain merge says |
| ConnectionPool.Run | NaturalVoiceSAPIAdapter/WSConnectionPool.cpp:142-449 | in every reachable state each connection ever created is pooled once, lent or uncounted once; the count is that of pooled and lent and within the limit; pooled ones still report closing |
| ConnectionPool.TakenIsOpen | NaturalVoiceSAPIAdapter/WSConnectionPool.cpp:142-213 | a connection taken is the first open one of the pool and lent out, the others stay in their order, and new ones are made only up to the minimum |
| ConnectionPool.WaitsForNew | NaturalVoiceSAPIAdapter/WSConnectionPool.cpp:195-222 | a taker that waits found none open and adds one connection, or as many as the minimum needs, unless the pool is full |
| ConnectionPool.StoppedOrFailed | NaturalVoiceSAPIAdapter/WSConnectionPool.cpp:188-222 | a taker is stopped if and only if that was requested; otherwise it is failed, with that error, if and only if it was woken and an error is kept; neither changes the pool |
| ConnectionPool.WokenByFailure | NaturalVoiceSAPIAdapter/WSConnectionPool.cpp:217-222 | over every run a woken taker that is not stopped is given an error, the pool unchanged, if and only if the last opening, closing or failing reported was a failure with it |
| ConnectionPool.RunHistory | NaturalVoiceSAPIAdapter/WSConnectionPool.cpp:142-365 | over every run the kept error is that of the last report, and the time of last activity that of the last connection taken, or of the making of the host |
| ConnectionPool.DeathNoticed | NaturalVoiceSAPIAdapter/WSConnectionPool.cpp:333-380 | over every run the handler of a connection that dies removes it if it is pooled, frees its place, and leaves its failure, or none, for the takers |
| ConnectionPool.OpeningServes | NaturalVoiceSAPIAdapter/WSConnectionPool.cpp:313-331 | over every run the taker woken by a pooled connection opening gets a connection |
| ConnectionPool.GivenBack | NaturalVoiceSAPIAdapter/WSConnectionPool.cpp:225-248 | over every run a connection given back is the last of the pool if open, and gone and uncounted otherwise |
| ConnectionPool.LastBackLastOut | NaturalVoiceSAPIAdapter/WSConnectionPool.cpp:142-248 | a connection given back is not lent again while another open one waits |
| ConnectionPool.RemoveKeepsOrder | NaturalVoiceSAPIAdapter/WSConnectionPool.cpp:368-380 | the others keep their order when one is removed |
| ConnectionPool.UncountedWhen | NaturalVoiceSAPIAdapter/WSConnectionPool.cpp:225-248 | a connection that closes while lent out leaves the count alone until it is put back, and is uncounted then; one that closes while pooled is uncounted by its handler |
| ConnectionPool.SilentRelease | NaturalVoiceSAPIAdapter/WSConnectionPool.cpp:229-247 | the steps that end a standstill without notifying are exactly a connection opening, whose handler follows, and the dropping of a dead connection |
| ConnectionPool.StrandedTaker | NaturalVoiceSAPIAdapter/WSConnectionPool.cpp:236-247 | a concrete run in which that leaves a taker waiting |
| ConnectionPool.KeepAliveArithmetic | NaturalVoiceSAPIAdapter/WSConnectionPool.cpp:421-447 | no subtraction goes below zero, closing leaves the minimum, and the count without the expired reaches the minimum unless the pool is full |
| ConnectionPool.IdleLeftAlone | NaturalVoiceSAPIAdapter/WSConnectionPool.cpp:398-399 | over every run a host from which nothing was taken for longer than the keep-alive time is left unchanged |
| ConnectionPool.KeepAliveCloses | NaturalVoiceSAPIAdapter/WSConnectionPool.cpp:402-447 | exactly the chosen connections start closing, and nothing else changes but new connections behind the others |
| ConnectionPool.ClosesOldest | NaturalVoiceSAPIAdapter/WSConnectionPool.cpp:424-436 | no expired connection left open is older than one closed |
| ConnectionPool.ClosesExpired | NaturalVoiceSAPIAdapter/WSConnectionPool.cpp:402-436 | only open, pooled, expired connections are closed, each once |
| ConnectionPool.HostInfo.GetConnection | NaturalVoiceSAPIAdapter/WSConnectionPool.cpp:142-163 | takes the first open connection out of the list without uncounting it |
| ConnectionPool.HostInfo.TakeConnection | NaturalVoiceSAPIAdapter/WSConnectionPool.cpp:188-222 | one turn of taking, with replenishing, refines the step and keeps the invariant |
| ConnectionPool.HostInfo.PutBackConnection | NaturalVoiceSAPIAdapter/WSConnectionPool.cpp:225-248 | an open connection goes to the end of the list, another is dropped and uncounted |
| ConnectionPool.HostInfo.OnFailHandler | NaturalVoiceSAPIAdapter/WSConnectionPool.cpp:345-365 | a failure is kept for the takers, and the connection is uncounted only if it is pooled |
| ConnectionPool.HostInfo.OnCloseHandler | NaturalVoiceSAPIAdapter/WSConnectionPool.cpp:333-343 | a close clears the last failure and uncounts the connection only if it is pooled |
| ConnectionPool.HostInfo.OnOpenHandler | NaturalVoiceSAPIAdapter/WSConnectionPool.cpp:319-325 | an opening clears the last failure and changes nothing else |
| ConnectionPool.HostInfo.RemoveConnection | NaturalVoiceSAPIAdapter/WSConnectionPool.cpp:368-380 | resets handlers and uncounts only what is in the list |
| ConnectionPool.HostInfo.KeepConnectionsAlive | NaturalVoiceSAPIAdapter/WSConnectionPool.cpp:382-449 | closing and replenishing refine the step and keep the invariant |
| BlockingQueue.Run | NaturalVoiceSAPIAdapter/BlockingQueue.h:22-76 | in every reachable state nothing is lost or reordered, the first ending is in force, and the consumer is not asleep with news unless a notification is pending |
| BlockingQueue.TakenIsPrefix | NaturalVoiceSAPIAdapter/BlockingQueue.h:22-76 | over every run the messages taken are a prefix of those pushed before the first complete or fail, the rest still queued; the queue is stopped exactly if that was asked for |
| BlockingQueue.TakeGives | NaturalVoiceSAPIAdapter/BlockingQueue.h:50-57 | a failure is thrown before anything else, nothing is returned only when stopped or drained after completion, otherwise the next message |
| BlockingQueue.NewsWakes | NaturalVoiceSAPIAdapter/BlockingQueue.h:24-48 | whenever the consumer sleeps with news, steps of other threads that wake it are possible |
| BlockingQueue.WokenBy | NaturalVoiceSAPIAdapter/BlockingQueue.h:22-76 | what wakes the sleeping consumer, exactly: a notification of a push or of the stop callback, the first failure, the first completion when nothing is queued, or nothing at all |
| BlockingQueue.OthersGoOn | NaturalVoiceSAPIAdapter/BlockingQueue.h:33-57 | the consumer gives up the lock by steps of its own, after which every call of other threads can go on |
| BlockingQueue.CanReturn | NaturalVoiceSAPIAdapter/BlockingQueue.h:35-45 | leaving take never deadlocks with the stop callback it waits for |
| BlockingQueue.MessageQueue.PushLockedPart | NaturalVoiceSAPIAdapter/BlockingQueue.h:22-31 | a push is accepted only before the queue is ended, and owes one notification |
| BlockingQueue.MessageQueue.CompleteQueue | NaturalVoiceSAPIAdapter/BlockingQueue.h:59-67 | the first completion ends the queue and notifies only when nothing is queued |
| BlockingQueue.MessageQueue.FailQueue | NaturalVoiceSAPIAdapter/BlockingQueue.h:68-76 | the first failure ends the queue, keeps the exception and notifies |
| BlockingQueue.MessageQueue.CheckCondition | NaturalVoiceSAPIAdapter/BlockingQueue.h:47-48 | the consumer waits only without stop request, message or ending |
| BlockingQueue.MessageQueue.FinishTake | NaturalVoiceSAPIAdapter/BlockingQueue.h:50-57 | the end of take on the real fields is the specified step |
| Wildcard.RegexEscape | NaturalVoiceSAPIAdapter/NetUtils.cpp:18-38 | the copying loop escapes every character as specified |
| Wildcard.CompiledAgrees | NaturalVoiceSAPIAdapter/NetUtils.cpp:18-60 | the escaped pattern, read as a regular expression, matches exactly the newline-free strings the wildcard pattern matches |
| Overlay.EnumItems | NaturalVoiceSAPIAdapter/DataKey.h:253-297 | for every index returns that element of the merged list, or the no-more-items error |
| Overlay.NothingRepeated | NaturalVoiceSAPIAdapter/DataKey.h:258-260 | the merged list has no duplicate when neither source has one |
| Overlay.NothingOmitted | NaturalVoiceSAPIAdapter/DataKey.h:280-288 | every registry name is listed or hidden by a virtual item of that name |
| Overlay.InOrder | NaturalVoiceSAPIAdapter/DataKey.h:263-297 | virtual items come first in their order, then each registry item that is not hidden, at the index given by how many such stand before it |
| Mp3Buffer.Decoder.Convert | NaturalVoiceSAPIAdapter/Mp3Decoder.h:90-116 | all input is consumed or kept in order and the leftover stays below capacity; when a conversion fails, all that was received before the call is still consumed or kept |
| Mp3Buffer.Decoder.ConvertOnce | NaturalVoiceSAPIAdapter/Mp3Decoder.h:97-115 | one conversion is given what was left over and as much of the chunk as fits, and keeps what the decoder did not use |
| Tokenizer.JoinTokens | NaturalVoiceSAPIAdapter/StringTokenizer.h:64-98 | joined again, the parts give back the string |
| Tokenizer.TokensClean | NaturalVoiceSAPIAdapter/StringTokenizer.h:49-98 | no part holds the delimiter, nor does it begin earlier than where a part ends |
| Tokenizer.BackwardsIsReversed | NaturalVoiceSAPIAdapter/StringTokenizer.h:69-97 | for a one-character delimiter reverse iteration yields the reversed list |
| Tokenizer.TokenIterator.Next | NaturalVoiceSAPIAdapter/StringTokenizer.h:64-110 | one step drops exactly the first of the remaining parts |
| Tokenizer.BackwardIterator.Next | NaturalVoiceSAPIAdapter/StringTokenizer.h:64-110 | the same, backwards |
| Tokenizer.BackwardIterator.Value | NaturalVoiceSAPIAdapter/StringTokenizer.h:126 | the part it stands on is the first of the remaining ones |
| Tokenizer.TokenIterator.Value | NaturalVoiceSAPIAdapter/StringTokenizer.h:126 | the same, forwards |

## Left out

- SsmlText.TranslationText: takes unknown tags without whitespace after them; with it, SsmlSloppy.TextSurvives says when the text survives apart from whitespace.
- SsmlNesting.TranslationBalanced: says nothing about texts that are not one XML tag, which SAPI may also hand over and the engine copies as they are.
- SsmlOffsets.RoundTripInside: takes fragments in source order and sums below 2^32; the builder's own offsets are not wrapped.
- WaveMerge.ChunkIndependent: events of equal tick are taken in one fixed order; the priority queue of the program leaves that order open.
- ConnectionPool.ClosesOldest: connections of equal age are taken in list order, which the library's sort leaves open.
- ConnectionPool.Run: an exception while creating a connection (also with one already taken in hand) and the tearing down of the pool are not modelled.
- TtsEngine.Engine.SpeakFragments: takes what the service reports, boundaries and bookmarks, as input, whichever of them the client asked for; that the service of a voice that is no Edge voice reports each bookmark of its document is up to the service. Exceptions of the service count as an abort, visemes are left out, and audio is not written.
- SsmlElements.TextPlaced: takes attribute values copied raw (locale, voice name, context category) to hold no apostrophe where it says what they read as; for an Edge voice it speaks of texts before which fewer than two prosody elements were opened, after which the open one is kept whatever is asked for.
- ConnectionPool.KeepAliveCloses: the message sent on connections that are kept is not modelled.
- Characters: a `char` stands for one 16-bit unit; surrogate pairs, UTF-8 conversion and non-ASCII case folding (`_wcsicmp`, `towlower`) are not modelled; the character-type table is a parameter.
- The fragment list is a sequence, the translator's local variables are one value passed along, and `m_events` is a sorted sequence: pointers, heap order and moves are not captured.
- The phoneme converter is a parameter that may yield nothing; the length a service reports for a word is its own.
- Real time, sleeping and lock fairness: waiting is a step, arrivals and write results are arbitrary inputs.
- BlockingQueue with several consumers: completion notifies only when the queue is empty, and the program has one consumer.
- Silence held back in `OnAudioData`, the task scheduler, MP3 header parsing, registry and token enumeration, HTTP, TLS, proxy discovery and logging.
- Scheme, port and path parts of the bypass expression; empty delimiters and multi-character reverse tokenising.
