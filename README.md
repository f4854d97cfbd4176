# StuddyBuddy core, modelled in Dafny

StuddyBuddy is a study-aid web app: flashcard decks kept in the browser's
local storage, a multiple-choice quiz, a chat assistant with canned replies,
a concept browser with search, file upload and download buttons, and a
navigation bar. This project models the sequential logic behind those
screens and proves what each piece promises.

- `storage.dfy` (`Storage`): the deck/flashcard store. It keeps one ordered
  sequence of decks under `"flashcards-decks"` and one sequence of cards per
  deck under `"flashcards-cards-" + id`. The class `Store` has the medium as
  a map from key to decoded blob: a deck list, a card list, or `Corrupt` for
  text that does not parse. A ghost counter records the change events sent.
  Each method is tied to a function giving the new medium (`AfterCreate`,
  `AfterSaveDeck`, `AfterDelete`, `AfterSaveCards`). The lemmas state the
  round trips, the upsert and cascade shapes, "nothing else changes", and
  the invariant that stored card counts match the stored cards.
- `quiz.dfy` (`Quiz`): the quiz session as a class with the select, next,
  previous and restart transitions. Scoring is a loop proved against a
  counting function. The score is rounded half up, and the results record
  is checked against the scoring.
- `chat.dfy` (`Chat`): the chat session. It covers the welcome message,
  sending, the reply timer, a change of topic, document upload and the
  downloadable transcript. Replies come from a keyword dispatch in a fixed order.
- `download.dfy` (`Download`): the download button's JSON, TXT and CSV
  content, its file naming and its `isDownloading` flag.
- `file_upload.dfy` (`FileUpload`): the upload dialog. It validates a
  selection by file count and byte size, removes a file by index, and steps
  the progress by 5 up to 100. It then hands the files to the page's
  callback, when the page gave one.
- `concepts.dfy` (`Concepts`) and `concepts_page.dfy` (`ConceptsPage`): the
  concept search, the slug used as the download name, and the extension
  stripping that turns an uploaded file name into the document title.
- `navbar.dfy` (`Navbar`): which navigation item is highlighted for a path.
- `text.dfy` (`Text`) and `wrappers.dfy` (`Wrappers`): shared string
  operations and `Option`.

Effects and outside services are parameters:
- Ids from `crypto.randomUUID` and times from `new Date()` are passed in by
  the caller.
- Each timer (a chat reply, an upload tick, a download) is an explicit
  method call. Timers of equal delay fire oldest first.

## Model

| member | source | states |
|---|---|---|
| `Storage.CardsKey` | lib/storage.ts:5 | a card key starts with "flashcards-cards-" and is never the deck key |
| `Storage.CardsKeyInjective` | lib/storage.ts:5 | distinct deck ids have distinct card keys |
| `Storage.DecksIn` | lib/storage.ts:8-20 | the decks `loadDecks` reads: the stored deck list, or none when the key is missing or does not decode; `Store.LoadDecks` is proved equal to it |
| `Storage.CardsIn` | lib/storage.ts:78-90 | the cards `loadCards` reads for a deck, or none when the key is missing or does not decode; `SaveCardsRoundTrip` and `DeleteDeckRemoves` state its behaviour |
| `Storage.IndexOfDeck` | lib/storage.ts:51 | `findIndex`: -1 exactly when no deck has the id, otherwise the first position holding it |
| `Storage.FindDeck` | lib/storage.ts:23-26 | `loadDeck`: none exactly when no deck has the id, otherwise the first deck carrying it |
| `Storage.RemoveDeck` | lib/storage.ts:68 | the filter keeps exactly the decks with another id and never grows |
| `Storage.Upsert` | lib/storage.ts:51-57 | replace the first deck with the id, or append; its shape, round trip and frame are `UpsertShape`, `UpsertFinds` and `UpsertKeepsOthers` |
| `Storage.AfterCreate` | lib/storage.ts:29-45 | the medium after `createDeck`: the deck key rewritten with the new deck appended; stated by `CreateDeckAppends` and `CreateDeckKeepsConsistent` |
| `Storage.AfterSaveDeck` | lib/storage.ts:49-63 | the medium after `saveDeck`: the deck key rewritten by the upsert; stated by `SaveDeckRoundTrip` |
| `Storage.AfterDelete` | lib/storage.ts:66-75 | the medium after `deleteDeck`: the deck filtered out and its card key removed; stated by `DeleteDeckRemoves`, `DeleteDeckIdempotent` and `DeleteDeckKeepsOthers` |
| `Storage.AfterSaveCards` | lib/storage.ts:93-108 | the medium after `saveCards`: the card key written, then the deck's count and time saved if it exists; stated by `SaveCardsRoundTrip`, `SaveCardsUpdatesDeck` and `SaveCardsKeepsOtherCards` |
| `Storage.UniqueIds` | lib/storage.ts:33 | no two stored decks share an id, which fresh `randomUUID` ids give; kept by `SaveCardsKeepsConsistent`, `CreateDeckKeepsConsistent`, `DeleteDeckKeepsUniqueIds` and `SaveDeckKeepsUniqueIds` |
| `Storage.Consistent` | lib/storage.ts:96-104 | every stored deck's `cardCount` equals the number of its stored cards, the invariant `saveCards` maintains |
| `Storage.IndexOfDeckAt` | lib/storage.ts:51 | a first occurrence of an id is the index `findIndex` reports |
| `Storage.UpsertShape` | lib/storage.ts:49-59 | saving a present id puts the deck at the first match's position, with the same length and every other position kept; a new id is appended |
| `Storage.UpsertFinds` | lib/storage.ts:49-59 | after an upsert, looking the id up yields the saved deck |
| `Storage.UpsertKeepsOthers` | lib/storage.ts:49-59 | an upsert does not change the lookup of any other id |
| `Storage.RemoveDeckAppend` | lib/storage.ts:68 | the filter distributes over concatenation, so the kept decks keep their order |
| `Storage.RemoveDeckAbsent` | lib/storage.ts:68 | filtering out an absent id changes nothing |
| `Storage.RemoveDeckKeepsOthers` | lib/storage.ts:68 | filtering out one id keeps the lookup of every other id |
| `Storage.DeleteDeckRemoves` | lib/storage.ts:66-71 | after `deleteDeck(id)` no deck has the id and its cards read as empty |
| `Storage.DeleteDeckIdempotent` | lib/storage.ts:66-71 | deleting the same id twice leaves the medium as one delete did |
| `Storage.DeleteDeckKeepsOthers` | lib/storage.ts:66-71 | deleting one deck keeps every other deck's record and cards |
| `Storage.CreateDeckAppends` | lib/storage.ts:29-45 | `createDeck` stores the old decks in order followed by exactly the new deck; cards untouched |
| `Storage.SaveDeckRoundTrip` | lib/storage.ts:49-59 | `saveDeck(d)` then `loadDeck(d.id)` yields `d`; cards untouched |
| `Storage.SaveCardsRoundTrip` | lib/storage.ts:93-94 | `saveCards(id, cs)` then `loadCards(id)` yields `cs` |
| `Storage.SaveCardsUpdatesDeck` | lib/storage.ts:93-104 | an existing deck keeps its position and gets `cardCount = |cs|` and the new time with every other field kept, every other deck stays as it was, and the lookup finds the updated deck; without the deck, the deck blob is unchanged |
| `Storage.SaveCardsKeepsOtherCards` | lib/storage.ts:94 | saving one deck's cards leaves every other deck's cards alone |
| `Storage.UniqueIndex` | lib/storage.ts:51 | with unique ids, `findIndex` of a deck's id is its own position |
| `Storage.SaveCardsKeepsConsistent` | lib/storage.ts:93-104 | `saveCards` keeps ids unique and every stored count equal to the stored cards |
| `Storage.DeleteDeckKeepsConsistent` | lib/storage.ts:66-71 | `deleteDeck` keeps every stored count equal to the stored cards |
| `Storage.RemoveDeckKeepsUniqueIds` | lib/storage.ts:68 | filtering out one id keeps the remaining ids unique |
| `Storage.DeleteDeckKeepsUniqueIds` | lib/storage.ts:66-71 | `deleteDeck` keeps the stored deck ids unique |
| `Storage.SaveDeckKeepsUniqueIds` | lib/storage.ts:49-59 | `saveDeck` keeps the stored deck ids unique: it overwrites the deck with the same id or appends a new id |
| `Storage.CreateDeckKeepsConsistent` | lib/storage.ts:29-45 | creating a fresh deck with count 0 keeps ids unique and counts truthful |
| `Storage.CreateDeckWithCountIsInconsistent` | lib/storage.ts:29-40 | creating a deck with a positive count and no cards records a count no cards back |
| `Storage.BiologyScenario` | lib/storage.ts:29-108 | create, save two cards, then delete: the deck appears with count 0, then with count 2 and the two cards, then is gone with no cards |
| `Storage.Store.constructor` | lib/storage.ts:3-5 | the store starts from a given medium with no events |
| `Storage.Store.LoadDecks` | lib/storage.ts:8-20 | a missing or undecodable blob reads as no decks; otherwise the stored decks |
| `Storage.Store.LoadDeck` | lib/storage.ts:23-26 | none exactly when no stored deck has the id; otherwise a stored deck with that id |
| `Storage.Store.CreateDeck` | lib/storage.ts:29-46 | returns the new id; the medium becomes `AfterCreate`; one event |
| `Storage.Store.SaveDeck` | lib/storage.ts:49-63 | the medium becomes `AfterSaveDeck`; one event |
| `Storage.Store.DeleteDeck` | lib/storage.ts:66-75 | the medium becomes `AfterDelete`; one event |
| `Storage.Store.LoadCards` | lib/storage.ts:78-90 | a missing or undecodable blob reads as no cards; otherwise the stored cards |
| `Storage.Store.SaveCards` | lib/storage.ts:93-108 | the medium becomes `AfterSaveCards`; two events when the deck exists, one otherwise |
| `Quiz.CorrectQuestions` | app/quiz/page.tsx:250 | the questions whose selected answer equals the correct one, in quiz order; never more than the quiz has |
| `Quiz.CorrectQuestionsAppend` | app/quiz/page.tsx:101-105 | counting correct answers distributes over concatenation |
| `Quiz.AllCorrectIff` | app/quiz/page.tsx:101-105 | every question is counted exactly when every answer is correct |
| `Quiz.NoneCorrectIff` | app/quiz/page.tsx:101-105 | no question is counted exactly when no answer is correct |
| `Quiz.AnsweredCorrectly` | app/quiz/page.tsx:102 | `selectedAnswers[q.id] === q.correctAnswer`: a missing answer is never correct; `AllCorrectIff`, `NoneCorrectIff` and `ResultsAgreeWithScoring` state its role |
| `Quiz.CountCorrect` | app/quiz/page.tsx:99-105 | the `forEach` loop's counter equals the number of correctly answered questions |
| `Quiz.ScorePercent` | app/quiz/page.tsx:107 | the score is in [0, 100] and is 100·correct/n rounded to the nearest integer, halves up |
| `Quiz.NearestUnique` | app/quiz/page.tsx:107 | at most one integer is the rounded percentage |
| `Quiz.ScoreMonotonic` | app/quiz/page.tsx:107 | more correct answers never lower the score |
| `Quiz.PerfectScoreIff` | app/quiz/page.tsx:107 | for fewer than 200 questions the score is 100 exactly when every answer is correct |
| `Quiz.ZeroScoreIff` | app/quiz/page.tsx:107 | for at most 200 questions the score is 0 exactly when no answer is correct |
| `Quiz.RoundingAtTheEnds` | app/quiz/page.tsx:107 | 199 of 200 rounds to 100 and 1 of 201 rounds to 0 |
| `Quiz.SampleScores` | app/quiz/page.tsx:17-76 | on the five-question sample quiz the score is 20 points per correct answer |
| `Quiz.FindQuestion` | app/quiz/page.tsx:146 | the found question belongs to the quiz and has the id; none means no question has it |
| `Quiz.OptionText` | app/quiz/page.tsx:148-149 | the found text belongs to an option with that id; none means no option has it |
| `Quiz.ResultFor` | app/quiz/page.tsx:146-152 | one results entry: the question's text, the chosen and correct option texts, and whether the answer is the correct one; an unknown id gives absent texts and `false`; `ResultsAgreeWithScoring` states it |
| `Quiz.ResultAnswers` | app/quiz/page.tsx:145-153 | the results hold one entry per answered question id |
| `Quiz.ResultsAgreeWithScoring` | app/quiz/page.tsx:145-153 | a question has a results entry exactly when answered; `isCorrect` holds exactly when scoring counts it |
| `Quiz.FindUnique` | app/quiz/page.tsx:146 | with unique ids, looking up a question's id finds that question |
| `Quiz.QuizSession.constructor` | app/quiz/page.tsx:79-82 | a session starts at question 0 with no answers, not completed, score 0 |
| `Quiz.QuizSession.SelectAnswer` | app/quiz/page.tsx:88-93 | sets the current question's answer only; index, flag and score are unchanged |
| `Quiz.QuizSession.NextQuestion` | app/quiz/page.tsx:95-116 | below the last question the index goes up by one; on the last question the quiz completes with the rounded score of the correct count |
| `Quiz.QuizSession.PreviousQuestion` | app/quiz/page.tsx:118-122 | the index goes down by one unless it is 0, and everything else is kept |
| `Quiz.QuizSession.RestartQuiz` | app/quiz/page.tsx:124-129 | back to index 0, no answers, not completed, score 0 |
| `Quiz.QuizSession.Results` | app/quiz/page.tsx:141-154 | the results record carries the question total, the score and one entry per answered question |
| `Chat.FirstKeyword` | app/chat/page.tsx:88-97 | the first keyword, in dispatch order from a position on, that the query contains; none means none of them occurs |
| `Chat.SelectReply` | app/chat/page.tsx:88-105 | which reply the if/else chain picks; `ReplyIsFirstMatch`, `ReplyIgnoresCase` and `KeywordWins` state it |
| `Chat.ReplyText` | app/chat/page.tsx:89-104 | the canned text of each reply kind; only the document reply depends on the topic |
| `Chat.DocumentReply` | app/chat/page.tsx:101 | the document-based reply, naming the topic when it is truthy and "several key concepts" otherwise |
| `Chat.Reply` | app/chat/page.tsx:84-105 | the reply text for an input, the document context and the topic captured at send time; `ChatSession.DeliverReply` appends it |
| `Chat.Truthy` | app/chat/page.tsx:36 | JavaScript truthiness of an optional string: present and non-empty |
| `Chat.WelcomeText` | app/chat/page.tsx:36-58 | the welcome text, naming the topic when it is truthy; `ChatSession.constructor` states its use |
| `Chat.ReceivedText` | app/chat/page.tsx:134 | the acknowledgement naming an uploaded file; `ChatSession.UploadFiles` states its use |
| `Chat.RoleLabel` | app/chat/page.tsx:154 | "StuddyBuddy AI" for the assistant, "You" otherwise; `EntryLabelled` states it |
| `Chat.Entry` | app/chat/page.tsx:153-156 | one transcript entry `[time] label: content`; `EntryLabelled` states it |
| `Chat.Transcript` | app/chat/page.tsx:150-160 | the entries joined by blank lines; `TranscriptGrows` states it |
| `Chat.UserMessages` | app/chat/page.tsx:79 | how many user messages a list shows; `UserMessagesAppend` and `ChatSession.Valid` use it |
| `Chat.ReplyIsFirstMatch` | app/chat/page.tsx:88-105 | the reply belongs to the first keyword found; with none, the document reply when a document is loaded, else the default |
| `Chat.ReplyIgnoresCase` | app/chat/page.tsx:88-97 | an input and its lowercased form get the same reply |
| `Chat.FirstKeywordAtMost` | app/chat/page.tsx:88-97 | an occurring keyword makes the first match that keyword or an earlier one |
| `Chat.KeywordWins` | app/chat/page.tsx:88-105 | a keyword found in the lowercased input wins over every later keyword and over the document |
| `Chat.Entries` | app/chat/page.tsx:152-157 | one transcript entry per message, in order |
| `Chat.TranscriptGrows` | app/chat/page.tsx:150-160 | one message's transcript is its entry; each further message adds "\n\n" and its entry |
| `Chat.EntryLabelled` | app/chat/page.tsx:154-156 | an entry is labelled "StuddyBuddy AI" exactly for assistant messages and "You" exactly for user messages |
| `Chat.UserMessagesAppend` | app/chat/page.tsx:78 | appending a message adds one to the user-message count exactly when it is the user's |
| `Chat.ChatSession.constructor` | app/chat/page.tsx:34-58 | exactly one welcome message; with a topic, the input is prefilled with "Explain {topic} in simple terms" |
| `Chat.ChatSession.TopicChanged` | app/chat/page.tsx:30-59 | a new topic re-runs the welcome effect: one welcome message for the new topic, the input prefilled only for a truthy topic and otherwise kept, pending replies kept; the same topic changes nothing |
| `Chat.ChatSession.SendMessage` | app/chat/page.tsx:69-84 | blank input changes nothing; otherwise one user message with the untrimmed input, the input cleared, loading on and one reply scheduled |
| `Chat.ChatSession.DeliverReply` | app/chat/page.tsx:84-117 | the oldest reply, computed from what its timer captured, is appended as an assistant message and loading ends; every message sent stays matched by one reply |
| `Chat.ChatSession.UploadFiles` | app/chat/page.tsx:126-141 | a non-empty list appends one message naming the first file and sets the document context; an empty list changes nothing |
| `Chat.ChatSession.DownloadText` | app/chat/page.tsx:150-161 | the transcript of the current messages; `TranscriptGrows` states how it grows |
| `Download.NatToString` | components/ui/download-button.tsx:54 | the decimal rendering of a number is non-empty, all digits, and starts with "0" only for 0; `NatToStringValue` proves it denotes the number |
| `Download.IntToString` | components/ui/download-button.tsx:54 | an integer renders as a non-empty string of digits and minus signs; `IntToStringValue` proves it reads back as the integer |
| `Download.DigitsValue` | components/ui/download-button.tsx:54 | the number a string of decimal digits denotes |
| `Download.NatToStringValue` | components/ui/download-button.tsx:54 | the digits of a natural number read back as that number |
| `Download.ParseInt` | components/ui/download-button.tsx:54 | reading back an optional minus sign followed by digits |
| `Download.IntToStringValue` | components/ui/download-button.tsx:54 | an integer's text reads back as the integer and starts with "-" exactly when the integer is negative |
| `Download.AsText` | components/ui/download-button.tsx:55 | the text `join` makes of a non-string value: digits, `true`/`false`, array items joined by "," with `null` items empty, `[object Object]` |
| `Download.Escape` | components/ui/download-button.tsx:54 | doubling quotes never shortens a string; `ReadQuotedEscape` and `LoneQuoteRejected` state that every quote is doubled |
| `Download.ReadQuoted` | components/ui/download-button.tsx:54 | how a CSV reader takes a quoted field's inside: a doubled quote is one quote, a single quote is malformed |
| `Download.ReadQuotedAfterEscape` | components/ui/download-button.tsx:54 | reading past escaped text gives back exactly that text, followed by what the rest reads as |
| `Download.ReadQuotedEscape` | components/ui/download-button.tsx:54 | the strict reader recovers the original string from its escaped form, so every inner quote was doubled |
| `Download.LoneQuoteRejected` | components/ui/download-button.tsx:54 | a quote that is not doubled makes the field unreadable, wherever it stands |
| `Download.StringCellRoundTrip` | components/ui/download-button.tsx:54 | a string cell is wrapped in quotes and its inside is read back by the strict reader as the string |
| `Download.ScalarCellsUnquoted` | components/ui/download-button.tsx:54-55 | numbers, booleans and `null` are written bare, never quoted |
| `Download.Cell` | components/ui/download-button.tsx:54-55 | one CSV cell: a string quoted with inner quotes doubled, `null` empty, anything else as its text; `StringCellRoundTrip` and `ScalarCellsUnquoted` state it |
| `Download.Keys` | components/ui/download-button.tsx:51 | `Object.keys`: field names, or positions for an array or string, nothing for a number or boolean |
| `Download.Values` | components/ui/download-button.tsx:53 | `Object.values`: field values, an array's items or a string's characters, nothing for a number or boolean |
| `Download.Header` | components/ui/download-button.tsx:51 | the first record's keys joined by ","; `CsvFirstLines` states it |
| `Download.Row` | components/ui/download-button.tsx:52-56 | one record's cells joined by ","; `CsvAppendRecord` states it |
| `Download.HasNull` | components/ui/download-button.tsx:51-53 | some record is `null`, so `Object.keys` or `Object.values` throws |
| `Download.CsvText` | components/ui/download-button.tsx:48-62 | the CSV export: "No data", none when the conversion throws, or the header then one row per record; `CsvNoData`, `CsvFirstLines`, `CsvAppendRecord` and `CsvNullFails` state it |
| `Download.FormatName` | components/ui/download-button.tsx:80 | the extension each format gives the file name |
| `Download.Rows` | components/ui/download-button.tsx:52-56 | one row per record, each built from that record's own values |
| `Download.CsvNoData` | components/ui/download-button.tsx:58-60 | an empty array or non-array data exports as "No data" |
| `Download.CsvFirstLines` | components/ui/download-button.tsx:50-57 | a one-record export is the first record's keys, unquoted, then its row |
| `Download.CsvAppendRecord` | components/ui/download-button.tsx:52-57 | each further record adds "\n" and exactly its own row at the end |
| `Download.CsvNullFails` | components/ui/download-button.tsx:51-53 | a `null` record makes the conversion throw, so no file is produced |
| `Download.Download` | components/ui/download-button.tsx:39-80 | a file is named `filename.format`; PDF and PNG give no file; CSV fails exactly when its conversion throws; TXT of a string is the string itself |
| `Download.DownloadButton.constructor` | components/ui/download-button.tsx:18-26 | the button starts idle with nothing scheduled or offered |
| `Download.DownloadButton.HandleDownload` | components/ui/download-button.tsx:29-33 | the flag goes up and the export is scheduled |
| `Download.DownloadButton.Fire` | components/ui/download-button.tsx:33-98 | the oldest export runs; a produced file is offered under its `filename.format` name; the flag comes down in every case |
| `FileUpload.Oversized` | components/ui/file-upload.tsx:66 | exactly the selected files larger than the byte limit |
| `FileUpload.ByteLimit` | components/ui/file-upload.tsx:66 | the byte limit `maxSizeMB * 1024 * 1024`; `DefaultLimitBoundary` shows it at the default |
| `FileUpload.CheckSelection` | components/ui/file-upload.tsx:50-77 | the outcome of the checks in the code's order: empty, count, size; `AcceptedIff` and `CountBeforeSize` state it |
| `FileUpload.AcceptedIff` | components/ui/file-upload.tsx:50-77 | a selection is accepted exactly when it is non-empty, within the count and every file is at most `maxSizeMB·1024·1024` bytes |
| `FileUpload.CountBeforeSize` | components/ui/file-upload.tsx:56-66 | too many files is reported before any size is looked at |
| `FileUpload.DefaultLimitBoundary` | components/ui/file-upload.tsx:37-38 | with the defaults, a file of exactly 10 MB is accepted and one byte more is too large |
| `FileUpload.WithoutIndex` | components/ui/file-upload.tsx:111-113 | removing index i drops exactly that file and keeps the others in order; an index out of range changes nothing |
| `FileUpload.FileUploader.constructor` | components/ui/file-upload.tsx:33-47 | the dialog starts closed with no files and no progress, remembering whether the page passed `onUploadComplete` |
| `FileUpload.FileUploader.FileChange` | components/ui/file-upload.tsx:50-77 | reports the validation outcome; only an accepted selection replaces the files |
| `FileUpload.FileUploader.RemoveFile` | components/ui/file-upload.tsx:111-113 | the files lose exactly the one at the index |
| `FileUpload.FileUploader.StartUpload` | components/ui/file-upload.tsx:79-85 | an empty list changes nothing; otherwise uploading starts from 0 with the chosen files |
| `FileUpload.FileUploader.Tick` | components/ui/file-upload.tsx:86-108 | progress rises by 5; at 100 the files go to the callback only when the page passed one, the dialog closes, and files and progress reset |
| `FileUpload.FileUploader.UploadToCompletion` | components/ui/file-upload.tsx:79-108 | an upload completes after exactly 20 ticks and hands the chosen files once to the callback, if there is one |
| `Concepts.FilterConcepts` | components/concepts/concepts-list.tsx:95-100 | a concept is kept exactly when the lowercased query occurs in its lowercased title, description or category; never more than the input |
| `Concepts.Matches` | components/concepts/concepts-list.tsx:96-99 | the search test on one concept; `QueryCaseIgnored`, `UnsearchedFields` and `RefiningQueryNarrows` state it |
| `Concepts.Visible` | components/concepts/concepts-list.tsx:95-100 | the shipped concepts the list shows for a query |
| `Concepts.VisibleBeforeSearch` | components/concepts/concepts-list.tsx:12-100 | with an empty search box every shipped concept is shown, in order |
| `Concepts.FilterAppend` | components/concepts/concepts-list.tsx:95 | the search distributes over concatenation, so the result keeps the concepts' order |
| `Concepts.EmptyQueryKeepsAll` | components/concepts/concepts-list.tsx:95-100 | the empty query keeps every concept |
| `Concepts.UnsearchedFields` | components/concepts/concepts-list.tsx:96-99 | details, examples and related concepts play no part in the search |
| `Concepts.QueryCaseIgnored` | components/concepts/concepts-list.tsx:97-99 | a query and its lowercased form match the same concepts |
| `Concepts.RefiningQueryNarrows` | components/concepts/concepts-list.tsx:95-100 | a query contained in a longer one keeps at least the concepts the longer one keeps |
| `Concepts.FilterIdempotent` | components/concepts/concepts-list.tsx:95-100 | searching the result again changes nothing |
| `Concepts.DownloadFilename` | components/concepts/concepts-list.tsx:150 | a concept's file name holds no whitespace and is no longer than its title |
| `Concepts.TwoWordFilename` | components/concepts/concepts-list.tsx:150 | a two-word title becomes its lowercased words joined by one "-" |
| `ConceptsPage.ExtensionUnique` | app/concepts/page.tsx:23 | the extension pattern matches at one position at most |
| `ConceptsPage.ExtensionAt` | app/concepts/page.tsx:23 | where `/\.[^/.]+$/` matches: a dot followed to the end by at least one character that is neither "/" nor "." |
| `ConceptsPage.TailLength` | app/concepts/page.tsx:23 | the trailing run of characters that are neither "/" nor "." is maximal |
| `ConceptsPage.StripExtension` | app/concepts/page.tsx:23 | the name is cut at the extension match when there is one and is unchanged otherwise |
| `ConceptsPage.StripLastExtensionOnly` | app/concepts/page.tsx:23 | "notes.tar.gz" becomes "notes.tar" |
| `ConceptsPage.StripDotFile` | app/concepts/page.tsx:23 | ".env" becomes "" |
| `ConceptsPage.StripKeepsUnmatched` | app/concepts/page.tsx:23 | "a.", "a.b/c" and "README" are unchanged |
| `ConceptsPage.StripIsPrefix` | app/concepts/page.tsx:23 | what remains is a prefix of the name |
| `ConceptsPage.StripTwice` | app/concepts/page.tsx:23 | a stem followed by "." and an extension strips back to the stem exactly |
| `ConceptsPage.ConceptsPage.constructor` | app/concepts/page.tsx:17-18 | the title starts as "Introduction to Psychology" and the search as empty |
| `ConceptsPage.ConceptsPage.SetSearchQuery` | app/concepts/page.tsx:89-90 | the search box sets the query and leaves the title |
| `ConceptsPage.ConceptsPage.HandleFileUpload` | app/concepts/page.tsx:21-23 | only the first file counts: its name without extension becomes the title; no files, no change |
| `ConceptsPage.ConceptsPage.DownloadFilename` | app/concepts/page.tsx:102 | the page's download name holds no whitespace |
| `Navbar.ActiveItems` | components/navbar.tsx:29-31 | an item is listed exactly when it is active for the path |
| `Navbar.ActiveAmong` | components/navbar.tsx:29-31 | the active items among any list of items |
| `Navbar.IsActive` | components/navbar.tsx:31 | `isActive` for one item: the exact path, or for a non-root item any path starting with its own; `RootActiveIff`, `ExactActive`, `ActiveIffExtends` and `AtMostOneActive` state it |
| `Navbar.RootActiveIff` | components/navbar.tsx:31 | the "/" item is active exactly on "/" |
| `Navbar.ExactActive` | components/navbar.tsx:31 | every item is active on its own path |
| `Navbar.ActiveIffExtends` | components/navbar.tsx:31 | a non-root item is active exactly on its path followed by anything |
| `Navbar.NestedPathActive` | components/navbar.tsx:12-31 | "/flashcards/x" highlights Flashcards and nothing else |
| `Navbar.QuizzesActivatesQuiz` | components/navbar.tsx:16-31 | "/quizzes" highlights the "/quiz" item and nothing else |
| `Navbar.RootOnlyDashboard` | components/navbar.tsx:12-31 | on "/" only Dashboard is highlighted |
| `Navbar.HrefsIndependent` | components/navbar.tsx:13-18 | no non-root item's path is a prefix of another's |
| `Navbar.AtMostOneActive` | components/navbar.tsx:12-31 | whatever the path, no two items are highlighted together |
| `Text.Lower` | app/chat/page.tsx:88 | lowercasing keeps the length and lowers each character |
| `Text.LowerIdempotent` | app/chat/page.tsx:88 | lowercasing twice is lowercasing once |
| `Text.LowerChar` | app/chat/page.tsx:88 | `toLowerCase` on one character: ASCII capitals folded, everything else kept |
| `Text.LowerAppend` | components/concepts/concepts-list.tsx:150 | lowercasing distributes over concatenation |
| `Text.LowerKeepsWhitespace` | components/concepts/concepts-list.tsx:150 | lowercasing neither creates nor removes whitespace |
| `Text.IsWhitespace` | app/chat/page.tsx:70 | the characters `trim` and `\s` treat as whitespace, ASCII only |
| `Text.TrimStart` | app/chat/page.tsx:70 | leading whitespace removed |
| `Text.TrimEnd` | app/chat/page.tsx:70 | trailing whitespace removed |
| `Text.Trim` | app/chat/page.tsx:70 | `trim`: both ends; `TrimEmptyIffBlank` states when it is empty |
| `Text.StartsWith` | components/navbar.tsx:31 | `startsWith`: the second string is a prefix of the first |
| `Text.Contains` | app/chat/page.tsx:88 | `includes`: the second string occurs in the first at some position |
| `Text.ContainsEmpty` | components/concepts/concepts-list.tsx:97 | every string includes the empty string |
| `Text.ContainsTrans` | components/concepts/concepts-list.tsx:97-99 | a string inside a string inside a third is inside the third |
| `Text.Join` | app/chat/page.tsx:158 | `join(sep)`: the pieces separated by `sep`; `JoinSnoc` states it |
| `Text.TrimEmptyIffBlank` | app/chat/page.tsx:70 | the trimmed input is empty exactly when the input is all whitespace |
| `Text.JoinSnoc` | app/chat/page.tsx:158 | joining one more piece appends the separator and that piece |
| `Text.DashRuns` | components/concepts/concepts-list.tsx:150 | replacing whitespace runs leaves no whitespace, never lengthens, and changes nothing without whitespace |
| `Text.DashRunsAppend` | components/concepts/concepts-list.tsx:150 | the replacement works piece by piece, each piece continuing the run the previous one ends in |
| `Text.DashRunsBlank` | components/concepts/concepts-list.tsx:150 | a whole whitespace run becomes one "-", or nothing inside a run already open |
| `Text.Slug` | components/concepts/concepts-list.tsx:150 | a slug holds no whitespace and is no longer than the title |
| `Text.SlugRun` | components/concepts/concepts-list.tsx:150 | a whitespace run between two words becomes exactly one "-" |
| `Text.SlugWithoutWhitespace` | app/concepts/page.tsx:102 | a title without whitespace slugs to its lowercase form |

## Left out

- Rendering, toasts, dialogs, icons, router navigation and `Link` are not modelled. Neither are the DOM download link and `URL.createObjectURL`.
- Local storage, `JSON.stringify` and `JSON.parse` are abstracted. The medium is a map of decoded values.
- `Corrupt` reads as empty. It stands for text that does not parse and for a blob of the wrong kind, as the source does for the first. It also stands for JSON that parses to something other than an array (`null`, an object, a number), which the source handles differently: `loadDecks` and `loadCards` (lib/storage.ts:14-15, 84-85) return such a value unchanged, so `loadDeck`, `createDeck`, `saveDeck`, `deleteDeck` and `saveCards` throw on it, and `loadCards` hands the non-array to its caller. These failures are not modelled.
- The `typeof window` guard is not modelled: the model always runs in the browser.
- Ids and clock readings are parameters. Id freshness is a precondition of the consistency lemmas; `createDeck` does not check it.
- `createdAt` and `updatedAt` come from two clock reads and are not asserted equal.
- Storage.Store.SaveCards: the change events are only counted, never delivered. There are two when the deck exists (one from the inner `saveDeck`, then its own) and one otherwise.
- Cross-tab `storage` events and last-writer-wins races between tabs are out of scope. Events are only counted.
- Timers are not concurrent in the model. Each firing is a method call, and timers of equal delay fire in order of scheduling.
- Floating point is replaced by exact integer arithmetic. The quiz score is exact half-up rounding of 100·correct/n, where the page computes it in floating point.
- The quiz progress percentage and the MB figures shown with `toFixed` are display-only floating point and are left out.
- Quiz.QuizSession.NextQuestion: requires a non-empty answer for the current question, because the page disables the Next button without one. It also requires the quiz not to be completed, because the question card is not shown after completion.
- Quiz.QuizSession.SelectAnswer: requires the quiz not to be completed, because the options are not shown after completion.
- Quiz.QuizSession.PreviousQuestion: requires the quiz not to be completed, because the Previous button is not shown after completion.
- Quiz.QuizSession.Results: `Object.entries` order is not modelled. The answers are a map keyed by question id.
- The quiz page's own `handleFileUpload` only shows a toast and is left out.
- FileUpload.FileUploader.StartUpload: requires that no upload is running, because the Upload button is disabled while one is.
- Case folding (`toLowerCase`) covers ASCII letters only. Whitespace (`\s`, `trim`) covers the ASCII whitespace characters only. Unicode case mapping and Unicode spaces are library behaviour.
- `toLocaleTimeString` is not modelled: a message timestamp is the already formatted time.
- Numbers in downloadable data are integers. `JSON.stringify(data, null, 2)` stays abstract as `Stringified(data)`.
- Values that appear only in JavaScript (`undefined`, functions, symbols) are not modelled.
- The PDF and PNG exports only show a notice and produce no file.
- The mind map (canvas drawing, trigonometric layout and zoom) and the summary tab are not part of this model.
- The concept page's "new document" notice and the "Ask about this" navigation (`encodeURIComponent`) are not part of this model.
- The document-analysis page, the dashboard, the flashcards and quizzes listing pages and the deck list are not part of this model. They hold static data, timers and views over the store.
