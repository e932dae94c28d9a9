# Five console programs, modelled and proved in Dafny

The repository holds five small C++ console programs. This project models the
logic of each one and proves what it promises:

- **Synonym dictionary and text rewriter** (`Num4`). A dictionary maps each
  synonym to its canonical word and each canonical word to its list of
  synonyms. It is loaded from and saved to lines of the form
  `canonical{syn1, syn2}`. A text processor replaces every word by its
  canonical word, and may ask the user about unknown words. An undo stack of
  closures reverts the editing commands.
  Modules: `Text`, `SynonymFormat`, `Synonyms`, `Undo`, `TextRewriter`.
- **Message store** (`Num12`). A `std::set` of chat messages is ordered by
  time, then by user. The program deletes one message or all of a user's
  messages, filters by user and time window, and loads messages from lines
  matching `(\S+)\s+(\S+):\s+(.+)`. Module: `Chat`.
- **Employee contracts** (`Num5`). A line-oriented reader fills a map of
  employees keyed by `"last first middle"`. There are queries over one
  employee's contracts (total cost, most expensive), removal by name, and the
  relabelling of contract numbers. Module: `EmployeeContracts`.
- **Lottery** (`Num11`). Tickets are held in a vector or a forward list. A
  draw shuffles them, takes up to `numWinners` tickets, gives each a prize in
  [0, 10000] and pushes it onto a hand-written linked stack or queue. A prize
  table is kept by ticket number. The winners are printed sorted by prize.
  Modules: `LinkedContainers`, `Lottery`.
- **RPG stat calculator** (`Num3`). Characters of four classes have per-class
  default stats. They are equipped with at most one item per slot. The total
  stats are the base plus the sum of the equipped items. Damage depends on the
  class. Module: `Rpg`.

Shared modules: `Wrappers` (the `Option` type) and `Seqs` (mapping a function
over a sequence).

Where the program mutates an object, the model keeps it as a `class` whose
methods state the new state. That new state is given by a pure specification
function on values (`Dict`, `seq<Message>`, `map<string, Employee>`, ...).
Lemmas prove the promised properties of those functions: round trips, order,
invariants, bounds.

How the program's behaviour is represented:

- **Strings:** a C++ `std::string` is a Dafny `string`, one character per byte.
- **Whitespace:** it is the six characters `isspace` accepts in the C locale.
- **Randomness:** every random draw is a nondeterministic choice (`:|`) within
  the distribution's range. This covers shuffles, prizes, rolls, slots and
  ability picks.
- **Console input:** it becomes parameters, such as the replies to the
  learning-mode prompts or the words typed after "Enter synonyms".
- **Files:** a file is the sequence of lines `getline` yields.

## Model

| member | source | states |
|---|---|---|
| Text.WordLenSpec | Num12/Num12/Num12.cpp:104 | the leading word (`\S+`) is a maximal run of non-whitespace characters |
| Text.SpaceLen | Num12/Num12/Num12.cpp:104 | the leading blank (`\s+`) is the maximal run of whitespace characters |
| Text.TokensAreWords | Num4/Num4/Num4.cpp:130 | every token `operator>>` extracts is non-empty and free of whitespace |
| Text.TokensOfSpaced | Num4/Num4/Num4.cpp:146-148 | words written each followed by a space read back as exactly those words |
| Text.Tokens | Num4/Num4/Num4.cpp:130 | a line gives at most one word per character |
| Text.TokensEmpty | Num4/Num4/Num4.cpp:130 | a line gives no words iff it is all whitespace |
| Text.StripSpace | Num12/Num12/Num12.cpp:33-36 | `erase(remove_if(..., isspace))` leaves no whitespace, is no longer than its input, and keeps a single character exactly when it is not whitespace |
| Text.StripSpaceMembers | Num12/Num12/Num12.cpp:33-36 | a character survives iff it was in the input and is not whitespace |
| Text.StripSpaceIdempotent | Num12/Num12/Num12.cpp:33-36 | stripping twice is stripping once |
| Text.StripSpaceAppend | Num12/Num12/Num12.cpp:33-36 | stripping a concatenation is stripping each part and concatenating, so the kept characters stay in their order and number |
| SynonymFormat.Split | Num4/Num4/Num4.cpp:93 | `getline` on `,` yields pieces free of the delimiter, and none for an empty list |
| SynonymFormat.SplitJoin | Num4/Num4/Num4.cpp:93 | joining the pieces with the delimiter gives back the input, less a final delimiter |
| SynonymFormat.LeadingSpace | Num4/Num4/Num4.cpp:94 | `find_first_not_of(" \t\n\r")`: the length of the leading run of those four characters |
| SynonymFormat.TrailingSpace | Num4/Num4/Num4.cpp:95 | `find_last_not_of(" \t\n\r")`: the length of the trailing run of those four characters |
| SynonymFormat.Trim | Num4/Num4/Num4.cpp:94-95 | a trimmed synonym is empty or neither starts nor ends with a trimmed character |
| SynonymFormat.TrimKeeps | Num4/Num4/Num4.cpp:94-95 | trimming only removes characters |
| SynonymFormat.TrimAll | Num4/Num4/Num4.cpp:93-97 | each piece is trimmed, one result per piece |
| SynonymFormat.ParseEntry | Num4/Num4/Num4.cpp:81-103 | `parseLine` yields an entry iff at least one character follows the first `{` |
| SynonymFormat.ParsedEntryShape | Num4/Num4/Num4.cpp:81-103 | the canonical word is the text before the first `{`; each synonym is trimmed and free of `,` and `}` |
| SynonymFormat.FormatEntry | Num4/Num4/Num4.cpp:42-50 | the written line is the word, `{`, the synonyms separated by `, `, then `}` |
| SynonymFormat.ParseFormatRoundTrip | Num4/Num4/Num4.cpp:81-103 | a line `saveToFile` writes is read back by `parseLine` as the same entry, when the word has no `{` and the synonyms are non-empty, unpadded and free of `,` and `}` |
| Synonyms.Without | Num4/Num4/Num4.cpp:77 | erase-remove drops every occurrence of the synonym and keeps every other word as often as before; a one-word list loses its word exactly when it is the synonym |
| Synonyms.WithoutAppend | Num4/Num4/Num4.cpp:77 | removal from a concatenation is removal from each part, so the remaining words keep their relative order |
| Synonyms.Dict.AddEntry | Num4/Num4/Num4.cpp:60-65 | each listed synonym maps to the word, the word's list is exactly the given one, everything else is unchanged |
| Synonyms.Dict.AddSynonym | Num4/Num4/Num4.cpp:67-70 | the synonym maps to the word and is appended to its list, which is created if absent; nothing else changes |
| Synonyms.Dict.RemoveSynonym | Num4/Num4/Num4.cpp:72-79 | only when the synonym maps to that word: the mapping goes and the synonym leaves the word's list; otherwise nothing changes |
| Synonyms.Dict.Resolve | Num4/Num4/Num4.cpp:55-58 | a word that is not a synonym resolves to itself; in a dictionary whose canonical words all have lists, a synonym resolves to a word that has one |
| Synonyms.Dict.LoadLine | Num4/Num4/Num4.cpp:81-103 | an unparsable line changes nothing; a parsed line's word gets exactly the parsed list; the invariant is kept |
| Synonyms.AddSynonymLeavesStaleCopy | Num4/Num4/Num4.cpp:67-70 | moving a synonym to another word leaves it in the old word's list |
| Synonyms.AddThenRemoveSynonym | Num4/Num4/Num4.cpp:67-79 | removing a synonym just added makes it resolve to itself |
| Synonyms.MapEachAll | Num4/Num4/Num4.cpp:61-63 | the loop of `synonym_map[s] = c` gives every listed synonym the value `c` |
| Synonyms.SynonymDictionary.constructor | Num4/Num4/Num4.cpp:19 | a new dictionary is empty |
| Synonyms.SynonymDictionary.GetCanonicalWord | Num4/Num4/Num4.cpp:55-58 | the mapped canonical word, or the word itself when it is not a synonym |
| Synonyms.SynonymDictionary.Restore | Num4/Num4/Num4.cpp:190 | assigning a saved copy makes the dictionary that copy; the invariant then holds iff the copy's canonical words all have lists |
| Synonyms.SynonymDictionary.AddEntry | Num4/Num4/Num4.cpp:60-65 | the new state is `Dict.AddEntry` of the old, and the invariant is kept |
| Synonyms.SynonymDictionary.AddSynonym | Num4/Num4/Num4.cpp:67-70 | the new state is `Dict.AddSynonym` of the old, and the invariant is kept |
| Synonyms.SynonymDictionary.RemoveSynonym | Num4/Num4/Num4.cpp:72-79 | the new state is `Dict.RemoveSynonym` of the old, and the invariant is kept |
| Synonyms.SynonymDictionary.ParseLine | Num4/Num4/Num4.cpp:81-103 | an unparsable line changes nothing; a parsed line stores its entry as `addEntry` would; the invariant is kept |
| Synonyms.SynonymDictionary.MapPieces | Num4/Num4/Num4.cpp:93-100 | the collected list is every piece trimmed, in order; the new state is `Dict.AddEntry` of the old with that list, and the invariant is kept |
| Synonyms.SynonymDictionary.LoadLines | Num4/Num4/Num4.cpp:22-33 | `loadFromFile` parses the lines in order, keeping the invariant |
| Synonyms.SynonymDictionary.SaveLines | Num4/Num4/Num4.cpp:35-53 | `saveToFile` writes exactly one line per canonical word, in some order |
| Synonyms.LoadAllRangeClosed | Num4/Num4/Num4.cpp:22-33 | after loading, every canonical word a synonym maps to has a list |
| Undo.UndoCount | Num4/Num4/Num4.cpp:165 | `undoLastActions(n)` runs `min(n, depth)` actions, none for `n <= 0` |
| Undo.ClampRequest | Num4/Num4/Num4.cpp:316-320 | a request above `MAX_UNDO` (10) becomes 10; any other stays |
| Undo.UndoInTwoSteps | Num4/Num4/Num4.cpp:164-169 | undoing `a + b` actions is undoing `a`, then `b` from what is left |
| Undo.UndoToSnapshot | Num4/Num4/Num4.cpp:189-191 | undoing down to a snapshot yields that snapshot whatever was done after it |
| Undo.RemoveEachUnmaps | Num4/Num4/Num4.cpp:212-214 | the removal loop unmaps each listed synonym and touches no other word's mapping |
| Undo.RemoveEach | Num4/Num4/Num4.cpp:212-214 | the removal loop keeps every canonical word a synonym maps to holding a list |
| Undo.Perform | Num4/Num4/Num4.cpp:166 | running an undo action keeps that invariant, given a saved copy that has it |
| Undo.UndoTop | Num4/Num4/Num4.cpp:164-169 | undoing the top actions keeps that invariant, given saved copies that have it |
| Undo.AddNewWordUndoUnmaps | Num4/Num4/Num4.cpp:211-219 | after `addNewWord` and its undo, the listed synonyms resolve to themselves and every other word as before |
| Undo.AddNewWordUndoAsWritten | Num4/Num4/Num4.cpp:211-219 | an input where undoing `addNewWord` does not give back the earlier dictionary |
| Undo.UndoSnapshotRestores | Num4/Num4/Num4.cpp:186-191 | undoing an edit recorded with a snapshot gives back the dictionary as it was |
| Undo.UndoManager.constructor | Num4/Num4/Num4.cpp:157 | the undo stack starts empty |
| Undo.UndoManager.AddUndoAction | Num4/Num4/Num4.cpp:160-162 | the action is pushed on top |
| Undo.UndoManager.IsEmpty | Num4/Num4/Num4.cpp:171-173 | true iff no action is stored |
| Undo.UndoManager.UndoLastActions | Num4/Num4/Num4.cpp:164-169 | the top `UndoCount` actions run, topmost first, and are popped |
| Undo.Execute | Num4/Num4/Num4.cpp:166 | calling the top closure has the effect its kind describes |
| Undo.ReadSynonyms | Num4/Num4/Num4.cpp:206-209 | the synonyms are the words before the first `end`, or all words when none is `end` |
| Undo.InputSynonym | Num4/Num4/Num4.cpp:176-196 | a snapshot of the old dictionary is pushed, then the synonym is added |
| Undo.AddNewWord | Num4/Num4/Num4.cpp:198-222 | the removal of the new synonyms is pushed, then the entry is added |
| Undo.AddNewWordRestorable | Num4/Num4/Num4.cpp:198-222 | the corrected command pushes a snapshot, so its undo restores the dictionary |
| Undo.UndoCommand | Num4/Num4/Num4.cpp:312-322 | menu option 5 undoes at most `MAX_UNDO` actions |
| TextRewriter.ResolveAll | Num4/Num4/Num4.cpp:130-146 | each word is replaced by its canonical word |
| TextRewriter.Learn | Num4/Num4/Num4.cpp:131-145 | in automatic mode, or for a word whose canonical word differs from it, nothing is asked and nothing changes; otherwise at most one answer is used up |
| TextRewriter.RewriteWords | Num4/Num4/Num4.cpp:130-146 | one output word per input word; replies are only used up |
| TextRewriter.RewriteLine | Num4/Num4/Num4.cpp:128-148 | the output line is empty iff the input line is blank |
| TextRewriter.RewriteLines | Num4/Num4/Num4.cpp:127-149 | replies are only used up |
| TextRewriter.AutomaticWords | Num4/Num4/Num4.cpp:127-149 | in automatic mode a line's words become their canonical words and the dictionary is unchanged |
| TextRewriter.AutomaticLines | Num4/Num4/Num4.cpp:127-149 | in automatic mode each output line is its input line rewritten |
| TextRewriter.OneLinePerLine | Num4/Num4/Num4.cpp:127-149 | one output line is written per input line |
| TextRewriter.AcceptedWordIsReplaced | Num4/Num4/Num4.cpp:132-146 | an unknown word the user gives a canonical word for is added as its synonym and written as that word |
| TextRewriter.RepliesConsumedInOrder | Num4/Num4/Num4.cpp:133-143 | the prompts consume the user's replies in order |
| TextRewriter.RewriteLineTokens | Num4/Num4/Num4.cpp:130-148 | reading a rewritten line gives back the canonical words of the original |
| TextRewriter.TextProcessor.constructor | Num4/Num4/Num4.cpp:111 | the processor refers to the given dictionary |
| TextRewriter.TextProcessor.ProcessFile | Num4/Num4/Num4.cpp:113-152 | the output lines and the new dictionary are those of `RewriteLines` |
| TextRewriter.TextProcessor.ProcessLine | Num4/Num4/Num4.cpp:128-148 | the inner word loop writes each word's canonical word followed by a space |
| Chat.LexLessIrreflexive | Num12/Num12/Num12.cpp:17-22 | no string is less than itself |
| Chat.LexLessTransitive | Num12/Num12/Num12.cpp:17-22 | string `<` is transitive |
| Chat.LexLessTotal | Num12/Num12/Num12.cpp:17-22 | of two different strings one is less |
| Chat.LexLessAsymmetric | Num12/Num12/Num12.cpp:17-22 | string `<` is asymmetric |
| Chat.Equivalence | Num12/Num12/Num12.cpp:17-22 | neither message is before the other iff time and user are equal, whatever the texts |
| Chat.MsgLessIrreflexive | Num12/Num12/Num12.cpp:17-22 | `operator<` is irreflexive |
| Chat.MsgLessTransitive | Num12/Num12/Num12.cpp:17-22 | `operator<` is transitive |
| Chat.MsgLessByKey | Num12/Num12/Num12.cpp:17-22 | the order looks only at time and user |
| Chat.SortedKeysUnique | Num12/Num12/Num12.cpp:93 | no two messages in the set share a time and a user |
| Chat.Insert | Num12/Num12/Num12.cpp:27-29 | `emplace` keeps the set ordered; a message whose key is present is ignored, any other is added |
| Chat.FirstMatch | Num12/Num12/Num12.cpp:32-38 | `find_if`: the first message in order with that user and the same time up to whitespace, or none |
| Chat.SortedRemove | Num12/Num12/Num12.cpp:41 | erasing one message keeps the set ordered |
| Chat.InWindowInclusive | Num12/Num12/Num12.cpp:72 | the time window includes both ends |
| Chat.Filter | Num12/Num12/Num12.cpp:62-84 | no longer than the set; `Chat.FilterMembers` and `Chat.FilterSorted` prove it holds exactly the messages meeting the criterion, in set order |
| Chat.FilterMembers | Num12/Num12/Num12.cpp:62-84 | a message is shown iff it is stored and meets the criterion |
| Chat.FilterSorted | Num12/Num12/Num12.cpp:62-84 | what is shown comes out in set order |
| Chat.RangeWithinUser | Num12/Num12/Num12.cpp:70-76 | a user's messages in a window are exactly those both by the user and in the window |
| Chat.EraseStep | Num12/Num12/Num12.cpp:51-58 | one step of the erase loop keeps the unvisited part intact and the visited part filtered |
| Chat.MessageStore.constructor | Num12/Num12/Num12.cpp:93 | the store starts empty |
| Chat.MessageStore.AddMessage | Num12/Num12/Num12.cpp:27-29 | the set becomes `Insert` of the old set |
| Chat.MessageStore.DeleteMessage | Num12/Num12/Num12.cpp:31-47 | deletes exactly the first matching message, reporting whether one was found |
| Chat.MessageStore.DeleteMessagesByUser | Num12/Num12/Num12.cpp:49-60 | afterwards the set holds exactly the other users' messages, in order |
| Chat.MessageStore.Visit | Num12/Num12/Num12.cpp:63-67 | the printing loop visits exactly the messages meeting the criterion, in set order |
| Chat.MessageStore.PrintMessagesByUser | Num12/Num12/Num12.cpp:62-68 | shows the user's messages in order |
| Chat.MessageStore.PrintMessagesByUserInRange | Num12/Num12/Num12.cpp:70-76 | shows the user's messages inside the window, in order |
| Chat.MessageStore.PrintMessagesInRange | Num12/Num12/Num12.cpp:78-84 | shows the messages inside the window, in order |
| Chat.ParseTimeAndText | Num12/Num12/Num12.cpp:104 | the parsed message keeps the user already read |
| Chat.ParseText | Num12/Num12/Num12.cpp:104 | the parsed message keeps the user and time already read |
| Chat.ParseMessageSound | Num12/Num12/Num12.cpp:104-108 | every parsed line has the shape user, blank, time, `:`, blank, text |
| Chat.ParseMessage | Num12/Num12/Num12.cpp:104-108 | a parsed message has a one-word user that is the line's first word, a one-word time and a text without line breaks |
| Chat.ParseUserSound | Num12/Num12/Num12.cpp:104 | the first group is a word followed by a blank |
| Chat.ParseTextSound | Num12/Num12/Num12.cpp:104 | the rest of the line is the time, `:`, a blank and a text free of line breaks |
| Chat.ParseMessageComplete | Num12/Num12/Num12.cpp:104-108 | every line of that shape is parsed, with its user and time, and its text when the text does not start with a blank |
| Chat.ParseTimeAndTextComplete | Num12/Num12/Num12.cpp:104 | every `time: text` rest is parsed |
| Chat.ParseTextComplete | Num12/Num12/Num12.cpp:104 | every blank-and-text rest is parsed |
| Chat.LoadOne | Num12/Num12/Num12.cpp:108-113 | loading a line keeps the set ordered |
| Chat.LoadAll | Num12/Num12/Num12.cpp:107-114 | loading all lines keeps the set ordered |
| Chat.LoadAllSnoc | Num12/Num12/Num12.cpp:107-114 | lines are loaded one after the other, in file order |
| Chat.LoadLine | Num12/Num12/Num12.cpp:108-113 | a matching line is added; the result says whether it matched |
| Chat.LoadMessages | Num12/Num12/Num12.cpp:96-115 | the store becomes `LoadAll` of the lines |
| EmployeeContracts.Clamp | Num5/Num5/Num5.cpp:73 | an out-of-range number is stored as the nearest 32-bit limit |
| EmployeeContracts.ParseInt | Num5/Num5/Num5.cpp:73 | `>> cost` yields a 32-bit value |
| EmployeeContracts.ParseDecimal | Num5/Num5/Num5.cpp:73 | a written 32-bit number is read back as itself |
| EmployeeContracts.ParseContract | Num5/Num5/Num5.cpp:60-73 | the fields come from tokens 2, 4, 6, 8 and 10; the cost fits in 32 bits |
| EmployeeContracts.ParseLines | Num5/Num5/Num5.cpp:55-76 | one contract per line of the block, each read from its own line |
| EmployeeContracts.BlockLen | Num5/Num5/Num5.cpp:55-57 | a contract block stops before the first `}` line |
| EmployeeContracts.LayoutAt | Num5/Num5/Num5.cpp:45-84 | a record is a name line, one skipped line, and the block up to the `}`; reading resumes after it |
| EmployeeContracts.LayoutSkip | Num5/Num5/Num5.cpp:47 | empty lines between records are skipped |
| EmployeeContracts.Records | Num5/Num5/Num5.cpp:33-87 | a file gives at most one employee per line |
| EmployeeContracts.InsertAll | Num5/Num5/Num5.cpp:79-80 | the keys afterwards are the old keys plus each record's key |
| EmployeeContracts.InsertAllKeyed | Num5/Num5/Num5.cpp:79-80 | each stored employee sits under the key built from its names |
| EmployeeContracts.LastRecordWins | Num5/Num5/Num5.cpp:80 | of two records with the same names, the later one is stored |
| EmployeeContracts.KeyNotInserted | Num5/Num5/Num5.cpp:80 | a key no record has is unchanged |
| EmployeeContracts.ParseContractLine | Num5/Num5/Num5.cpp:60-73 | a contract line in the data format is read back as the same contract |
| EmployeeContracts.ParseContractLines | Num5/Num5/Num5.cpp:55-76 | a written block of contract lines is read back as the same contracts |
| EmployeeContracts.WrittenText | Num5/Num5/Num5.cpp:45-84 | a written record is read back as the same employee |
| EmployeeContracts.LayoutOfFile | Num5/Num5/Num5.cpp:45-84 | a file of written records is split back into the same records |
| EmployeeContracts.ReadWrittenFile | Num5/Num5/Num5.cpp:33-87 | a data file written for a list of employees is read back as that list |
| EmployeeContracts.SumCostsAppend | Num5/Num5/Num5.cpp:90-98 | the total of a list is the sum of the totals of its parts |
| EmployeeContracts.SumCosts | Num5/Num5/Num5.cpp:90-98 | contracts with non-negative costs total a non-negative sum |
| EmployeeContracts.TotalCostOfContracts | Num5/Num5/Num5.cpp:90-98 | the loop returns the sum of the costs |
| EmployeeContracts.MostExpensiveIndex | Num5/Num5/Num5.cpp:145-149 | `max_element` gives the first position of the highest cost |
| EmployeeContracts.MostExpensiveContract | Num5/Num5/Num5.cpp:143-155 | the FIRST contract of the employee with the highest cost: no contract costs more, and every contract before it costs strictly less |
| EmployeeContracts.Relabel | Num5/Num5/Num5.cpp:152 | `replace(0, 3, "contract №")` swaps the first three bytes for the prefix |
| EmployeeContracts.RelabelNumberSign | Num5/Num5/Num5.cpp:201 | a number written `№digits` becomes `contract №digits` |
| EmployeeContracts.RelabelInjective | Num5/Num5/Num5.cpp:201 | numbers sharing their first three bytes keep distinct labels |
| EmployeeContracts.EmployeeRegistry.constructor | Num5/Num5/Num5.cpp:31 | the map starts empty |
| EmployeeContracts.EmployeeRegistry.ParseAndStoreData | Num5/Num5/Num5.cpp:33-87 | each record of the file, in order, is stored under its key; every employee stays under its own key |
| EmployeeContracts.EmployeeRegistry.ReadContracts | Num5/Num5/Num5.cpp:55-76 | the block runs up to the first `}` line, each line read as a contract |
| EmployeeContracts.EmployeeRegistry.RemoveEmployee | Num5/Num5/Num5.cpp:158-162 | exactly the key built from the three names is erased; every other employee stays under its own key |
| EmployeeContracts.StoreKeepsKeys | Num5/Num5/Num5.cpp:79-80 | after reading a file every employee still sits under its own key |
| LinkedContainers.ChainLinked | Num11/Num11/Num11.cpp:26-34 | a chain of nodes links each node to the next and ends in null |
| LinkedContainers.LinkedChain | Num11/Num11/Num11.cpp:26-34 | nodes linked in order with a null end form a chain |
| LinkedContainers.Node.constructor | Num11/Num11/Num11.cpp:33 | a new node holds the value and links nowhere |
| LinkedContainers.Stack.constructor | Num11/Num11/Num11.cpp:44 | a new stack is empty |
| LinkedContainers.Stack.Push | Num11/Num11/Num11.cpp:46-51 | the value goes on top of the stack |
| LinkedContainers.Stack.Pop | Num11/Num11/Num11.cpp:53-64 | removes and returns the top value; an empty stack is the exception |
| LinkedContainers.Stack.IsEmpty | Num11/Num11/Num11.cpp:66-69 | true iff the stack holds nothing |
| LinkedContainers.Queue.constructor | Num11/Num11/Num11.cpp:81 | a new queue is empty |
| LinkedContainers.Queue.Enqueue | Num11/Num11/Num11.cpp:83-95 | the value joins at the back |
| LinkedContainers.Queue.Dequeue | Num11/Num11/Num11.cpp:97-112 | removes and returns the front value; an empty queue is the exception |
| LinkedContainers.Queue.IsEmpty | Num11/Num11/Num11.cpp:114-117 | true iff the queue holds nothing, and then `back` is null too |
| Lottery.TicketRange | Num11/Num11/Num11.cpp:129-136 | `n` tickets for positive `n`, none otherwise |
| Lottery.TicketRangeAt | Num11/Num11/Num11.cpp:132-135 | ticket `i` has number `i + 1` and no prize |
| Lottery.TicketRangeDistinct | Num11/Num11/Num11.cpp:129-136 | generated tickets have distinct numbers |
| Lottery.SetThenCheck | Num11/Num11/Num11.cpp:167-183 | `checkAndGetValue` after `setPrize` reads back that prize and leaves other numbers alone |
| Lottery.PrizeOf | Num11/Num11/Num11.cpp:167-178 | a number without a recorded prize is worth 0; with prizes in [0, 10000] so is the result |
| Lottery.LotteryVector.CheckAndGetValue | Num11/Num11/Num11.cpp:167-178 | the prize recorded for the ticket's number, 0 when there is none |
| Lottery.LotteryForwardList.CheckAndGetValue | Num11/Num11/Num11.cpp:240-251 | the prize recorded for the ticket's number, 0 when there is none |
| Lottery.LotteryDrawStack.CheckAndGetValue | Num11/Num11/Num11.cpp:313-324 | the prize recorded for the number, 0 when there is none |
| Lottery.LotteryDrawQueue.CheckAndGetValue | Num11/Num11/Num11.cpp:376-387 | the prize recorded for the number, 0 when there is none |
| Lottery.LotteryVector.FindTicket | Num11/Num11/Num11.cpp:154-164 | a found position holds the first ticket with the number; none is found iff no ticket has it |
| Lottery.LotteryForwardList.FindTicket | Num11/Num11/Num11.cpp:227-237 | a found position holds the first ticket with the number; none is found iff no ticket has it |
| Lottery.LotteryVector.HasTickets | Num11/Num11/Num11.cpp:185-188 | true iff some number finds a ticket |
| Lottery.LotteryForwardList.HasTickets | Num11/Num11/Num11.cpp:258-261 | true iff some number finds a ticket |
| Lottery.FindIndex | Num11/Num11/Num11.cpp:154-164 | `findTicket` finds the first ticket with the number, or none if no ticket has it |
| Lottery.RecordPrizesLookup | Num11/Num11/Num11.cpp:285 | a winner's number reads back its prize; numbers not drawn keep theirs |
| Lottery.RecordPrizes | Num11/Num11/Num11.cpp:285 | the keys afterwards are the old keys plus each winner's number |
| Lottery.RecordPrizesInRange | Num11/Num11/Num11.cpp:277-285 | every recorded prize is in [0, 10000] |
| Lottery.PushedOntoReverse | Num11/Num11/Num11.cpp:284 | the stack of winners holds them last drawn first |
| Lottery.PermutationKeepsDistinct | Num11/Num11/Num11.cpp:142 | shuffling keeps ticket numbers distinct |
| Lottery.DrawFromRange | Num11/Num11/Num11.cpp:273-287 | winners drawn from tickets 1..n have distinct numbers in 1..n, and each reads back its own prize |
| Lottery.LotteryVector.constructor | Num11/Num11/Num11.cpp:124-125 | no tickets and no prizes |
| Lottery.LotteryVector.GenerateTickets | Num11/Num11/Num11.cpp:129-136 | the tickets become 1..n in order |
| Lottery.LotteryVector.ShuffleTickets | Num11/Num11/Num11.cpp:139-143 | the tickets are permuted |
| Lottery.LotteryVector.GetRandomTicket | Num11/Num11/Num11.cpp:146-151 | the last ticket is removed and returned |
| Lottery.LotteryVector.SetPrize | Num11/Num11/Num11.cpp:180-183 | the prize is recorded under the ticket's number |
| Lottery.LotteryForwardList.constructor | Num11/Num11/Num11.cpp:195-196 | no tickets and no prizes |
| Lottery.LotteryForwardList.GenerateTickets | Num11/Num11/Num11.cpp:200-207 | prepending `n` down to 1 leaves the tickets 1..n in order |
| Lottery.LotteryForwardList.ShuffleTickets | Num11/Num11/Num11.cpp:210-216 | the tickets are permuted |
| Lottery.LotteryForwardList.GetRandomTicket | Num11/Num11/Num11.cpp:219-224 | the first ticket is removed and returned |
| Lottery.LotteryForwardList.SetPrize | Num11/Num11/Num11.cpp:253-256 | the prize is recorded under the ticket's number |
| Lottery.AdjacentSortedIsSorted | Num11/Num11/Num11.cpp:301-303 | neighbours in prize order means the whole list is in prize order |
| Lottery.InsertByPrize | Num11/Num11/Num11.cpp:301-303 | insertion keeps prize order and adds exactly the ticket |
| Lottery.SortByPrize | Num11/Num11/Num11.cpp:301-303 | the sort yields a permutation in non-increasing prize order |
| Lottery.LotteryDrawStack.constructor | Num11/Num11/Num11.cpp:268-269 | no winners and no prizes |
| Lottery.LotteryDrawStack.ConductDraw | Num11/Num11/Num11.cpp:273-287 | after a shuffle, up to `numWinners` tickets leave from the back with prizes in [0, 10000], are pushed and recorded |
| Lottery.LotteryDrawStack.DrawOne | Num11/Num11/Num11.cpp:281-285 | one pass of the draw: the last ticket leaves the lottery with a prize in [0, 10000], is pushed and its prize recorded |
| Lottery.LotteryDrawStack.WinningTickets | Num11/Num11/Num11.cpp:290-303 | the winners are popped and come out sorted by prize, highest first |
| Lottery.LotteryDrawQueue.constructor | Num11/Num11/Num11.cpp:331-332 | no winners and no prizes |
| Lottery.LotteryDrawQueue.ConductDraw | Num11/Num11/Num11.cpp:336-350 | after a shuffle, up to `numWinners` tickets leave from the front with prizes in [0, 10000], are enqueued and recorded |
| Lottery.LotteryDrawQueue.DrawOne | Num11/Num11/Num11.cpp:344-348 | one pass of the draw: the first ticket leaves the lottery with a prize in [0, 10000], is enqueued and its prize recorded |
| Lottery.LotteryDrawQueue.WinningTickets | Num11/Num11/Num11.cpp:353-366 | the winners are dequeued and come out sorted by prize, highest first |
| Rpg.DefaultStats | Num3/Num3/Num3.cpp:117-130 | the class's fixed starting stats, all non-negative; all zeros exactly for a value outside the four classes |
| Rpg.MakeEquipment | Num3/Num3/Num3.cpp:30-51 | health and armor as given, the main stat in the class's component and 0 in the other two primary stats (all three 0 for a class outside the four), accuracy and luck the first secondary stat, mastery the second |
| Rpg.DamageAdditive | Num3/Num3/Num3.cpp:95-114 | damage of a sum of stats is the damage of each part |
| Rpg.Damage | Num3/Num3/Num3.cpp:95-114 | with non-negative stats, at least mastery plus the ability damage; exactly that for a class outside the four |
| Rpg.ItemDamage | Num3/Num3/Num3.cpp:95-114 | one item adds twice its main stat (once for a ranged fighter) plus its mastery |
| Rpg.AnySlot | Num3/Num3/Num3.cpp:83 | the loop visits some slot of the map |
| Rpg.SumOverInsert | Num3/Num3/Num3.cpp:81-93 | the equipment sum does not depend on the visiting order |
| Rpg.AddOneSlot | Num3/Num3/Num3.cpp:83-92 | one pass of the loop adds exactly the visited item |
| Rpg.SumOverAgree | Num3/Num3/Num3.cpp:81-93 | the sum depends only on the items in the visited slots |
| Rpg.EquippedNone | Num3/Num3/Num3.cpp:63-66 | nothing equipped adds nothing |
| Rpg.EquippedReplace | Num3/Num3/Num3.cpp:68-71 | equipping replaces the item in the slot: the sum is the other items plus the new one |
| Rpg.RolledItemDamage | Num3/Num3/Num3.cpp:144-163 | a randomly generated item adds between 3 and 30 damage (2 and 20 for a ranged fighter) |
| Rpg.SumOverDamage | Num3/Num3/Num3.cpp:95-114 | generated items add between those bounds per equipped slot |
| Rpg.GenerateRandomEquipment | Num3/Num3/Num3.cpp:144-163 | an item for the slot, named after it, every roll in [1, 10] |
| Rpg.ClassOfChoice | Num3/Num3/Num3.cpp:244-262 | menu numbers 1 to 4 give their class; any other choice gives a defender |
| Rpg.Character.constructor | Num3/Num3/Num3.cpp:63-66 | the class's default stats, totals equal to them, no ability damage, nothing equipped |
| Rpg.Character.Equip | Num3/Num3/Num3.cpp:68-71 | the item takes its slot and the totals become current again |
| Rpg.Character.UpdateTotalStats | Num3/Num3/Num3.cpp:81-93 | the totals are the base stats plus the sum of every equipped item |
| Rpg.Character.ApplyRandomAbility | Num3/Num3/Num3.cpp:73-79 | the ability damage becomes some entry of the list; nothing else changes |
| Rpg.Character.CalculateDamage | Num3/Num3/Num3.cpp:95-114 | with current totals, damage is the damage of the base stats with the ability plus what the equipped items add |
| Rpg.CharacterDamageBounds | Num3/Num3/Num3.cpp:95-114 | with generated items, damage lies between the base damage plus the per-slot bounds |
| Rpg.GenerateEquipmentsForCharacter | Num3/Num3/Num3.cpp:169-175 | for `n <= 0` nothing changes; otherwise each of `n` passes equips a generated item, the totals are current afterwards (and stay current when they were), at most `n` slots (the ghost `touched`) differ from before, and each slot holds its old item or a generated one |
| Rpg.AddAbilities | Num3/Num3/Num3.cpp:177-188 | appends exactly 20, 25, ..., 65, in that order |

## Left out

- Console and file I/O are not modelled: prompts, printing, `system("color F0")`, and files that cannot be opened (the exceptions in `loadFromFile`, `saveToFile` and `processFile`). Files are sequences of lines, and console answers are parameters.
- Each `main` function is not modelled: the menus, and the fixed calls on example data. Its pieces are: the undo clamp (`Undo.ClampRequest`, `Undo.UndoCommand`), the choice between stack and queue in the lottery, and the class menu (`Rpg.ClassOfChoice`).
- `startGame` (Num3): its per-character loop and the `characters` vector are not modelled. Its steps are modelled one by one: class choice, constructor, three generated items, random ability.
- `showCharacterStats`, `printMessages`, `printEmployees` and the printing half of `printWinningTickets` only print, so they are not modelled.
- `processText`: its learning block reads `unknown_words`, which is never filled. The block is dead code and is not modelled; the call to `processFile` is.
- `longestContract` and `parseDate` (Num5) are not modelled. They depend on `std::get_time`, `mktime` and the local time zone.
- `contractsOfWork` returns the list unchanged; it is `e.contracts`.
- `EmployeeContracts.ParseContract`: when an earlier extraction on the line failed, `>> cost` leaves the uninitialised `cost`; the model uses 0.
- `EmployeeContracts.TotalCostOfContracts`: the sum is unbounded; 32-bit overflow of `totalCost` is not modelled.
- `Rpg.Character.UpdateTotalStats`: it is written as one component-wise `Add` per item, instead of the eight `+=` of the source.
- `Rpg.GenerateEquipmentsForCharacter`: the slots are random, so it does not say which slots received items: it states that at most `n` slots changed, that each holds its old item or a generated one, and that at least one slot is filled when `n > 0`.
- Integer stats and damage in `Rpg` are unbounded; the values the program produces are far from 32-bit limits.
- `Rpg`: the slot name "Unknown" is unreachable, because every `SlotType` value has a name. The default `Equipment` constructor is only used by `unordered_map`'s `operator[]` before the assignment.
- `Lottery`: prizes are integers. The program holds them as `double`, but only ever stores values from an integer distribution in [0, 10000].
- `Lottery`: `main` reads the ticket count as `unsigned long` and passes it to an `int` parameter. That conversion is not modelled; the count is an `int`.
- `Lottery.LotteryDrawStack.WinningTickets` and `Lottery.LotteryDrawQueue.WinningTickets`: the temporary copy shares the nodes with the original container, so the pops and dequeues consume the original's nodes. The model drains the original container. It does not model the dangling `top` (or `front`/`back`) that the source leaves behind after deleting the nodes.
- `Lottery.SortByPrize`: `std::sort` is not stable, so among equal prizes it may give any order. The model fixes one order and proves only what every order shares: non-increasing prizes and a permutation.
- `Lottery.LotteryVector.FindTicket` and `Lottery.LotteryForwardList.FindTicket` return a position instead of the address of the ticket inside the container.
- `Synonyms.SynonymDictionary.SaveLines`: `unordered_map` iteration order is unspecified, so it states the set of lines and their number, not their order.
- `Rpg.SumOverInsert`: `unordered_map` iteration order is unspecified, so the loop visits slots in an arbitrary order. The model proves the sum is the same for every order.
- `TextRewriter.Learn`: when the answers run out, the model treats the question as declined. In the source a failed `std::cin >> option` leaves `option` uninitialised, so what happens then is not defined; the model does not capture it.
- Undo closures are values of `Undo.UndoAction`: a saved dictionary, or a list of removals. The `saveToFile` call inside a closure is output, so it is not modelled.
- `Chat.ParseMessage`: the regular expression is worked out by hand for this one pattern; there is no general regex engine.
- Locale: only the C locale's `isspace` and byte-wise `std::string` comparison are modelled.

## Findings

| source | as written | input that shows it | evidently intended | confidence | as-written member | corrected member |
|---|---|---|---|---|---|---|
| Num4/Num4/Num4.cpp:211-217 | the undo closure of `addNewWord` only removes each new synonym from the new canonical word | dictionary `b{s}`; `addNewWord` with word `c` and synonyms `s`; undo: `s` then resolves to itself instead of `b`, and `c{}` is left behind | undo gives back the dictionary as it was before the command, as the snapshot taken by `inputSynonym` does | not executed | Undo.AddNewWordUndoAsWritten | Undo.AddNewWordRestorable |
