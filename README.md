# winoreview: the `/generate-review` handler, modelled in Dafny

The repository is one Express endpoint, `POST /generate-review`. A request
names a wine `varietal`, a `region` and a reader `persona`. The handler

1. rejects any persona other than `newcomer`, `novice` and `connoisseur`,
   throwing `Invalid persona '<p>'. Expected one of: newcomer, novice, connoisseur`;
2. fills the persona's fixed prompt template with the varietal and region;
3. looks the prompt up in the `reviews` table and, on a hit, answers with the
   stored review;
4. on a miss, asks the completion service for text, trims it, collapses every
   run of two or more line feeds into one blank line, trims again, stores the
   (prompt, review) row and answers with the review.

The model has three modules, one per piece of logic in `app.js`:

- `PromptBuilder` (`prompt_builder.dfy`): the persona check and the template
  table, as functions over strings. `PersonaOf` reads the persona back from a
  prompt; it is the partner that shows the three templates never collide.
- `ReviewText` (`review_text.dfy`): `String.prototype.trim` and
  `replace(/\n\n+/g, '\n\n')` as functions. The collapse is proved equal to an
  independent reference definition: keep every character except a line feed
  whose two predecessors are line feeds (`KeptFrom`).
- `ReviewCache` (`review_cache.dfy`): the table as a class `ReviewStore` with a
  `map<string, string>` field that the insert updates in place. The completion
  service is a function parameter `string -> string`. A ghost field
  `generatorCalls` logs every prompt handed to it, so the contracts can say how
  often it is called.

Assumptions the model makes:

- A table lookup is exact key equality on the prompt string.
- `IsWhitespace` is the set that ECMAScript's `trim` removes (WhiteSpace and
  LineTerminator). No proof depends on which characters are in the set.
- `varietal`, `region` and `persona` are strings.

The regex `/\n\n+/g` collapses any run of two or more line feeds, that is one
or more blank lines; it does not touch `\r\n\r\n` or lines holding only
spaces, and neither does the model.

## Model

| member | source | states |
|---|---|---|
| `PromptBuilder.ParsePersona` | app.js:18-21 | a label is accepted iff it is one of the three listed, names the persona it spells, and otherwise fails with the invalid-persona message |
| `PromptBuilder.ValidPersonasAreLabels` | app.js:18 | the accepted list is exactly the three persona labels, in the order newcomer, novice, connoisseur |
| `PromptBuilder.Join` | app.js:20 | `join` of no elements is empty; otherwise the result opens with the first element and ends with the last, and with two or more the separator follows the first element |
| `PromptBuilder.JoinedPersonas` | app.js:18-20 | the accepted personas joined by ", " read `newcomer, novice, connoisseur` |
| `PromptBuilder.InvalidPersonaMessage` | app.js:20 | the message quotes the persona and lists the allowed ones joined by ", ": `Invalid persona '<p>'. Expected one of: newcomer, novice, connoisseur` |
| `PromptBuilder.ParseLabel` | app.js:18-19 | every persona's own label passes the check and maps back to that persona |
| `PromptBuilder.Lead` | app.js:33-37 | every template opens "Generate a wine review for someone who "; the next character tells "has never had" (newcomer) from "is ...", and three further on "is new to" (novice) from "is familiar with" (connoisseur) |
| `PromptBuilder.Template` | app.js:33-37 | the prompt is the persona's lead, the varietal verbatim, " from ", the region verbatim and a full stop, and nothing else |
| `PromptBuilder.BuildPrompt` | app.js:18-40 | fails iff the persona is not one of the three, with the exact message; otherwise gives that persona's template text with varietal and region inserted verbatim |
| `PromptBuilder.PersonaOfTemplate` | app.js:33-37 | the persona can be read back from any prompt the table builds, whatever the varietal and region |
| `PromptBuilder.PromptDeterminesPersona` | app.js:34-36 | two prompts from different personas are never equal, even with different varietals and regions |
| `PromptBuilder.DistinctPersonasDistinctPrompts` | app.js:33-40 | for one varietal and region, two different accepted personas give two different prompts |
| `ReviewText.IsWhitespace` | app.js:73-76 | the characters `trim` removes; among ASCII ones exactly tab, line feed, vertical tab, form feed, carriage return and space |
| `ReviewText.LeadingWhitespace` | app.js:73 | the number of whitespace characters that open the text: all of them whitespace, and the next one not |
| `ReviewText.TrailingWhitespace` | app.js:73 | the number of whitespace characters that close the text: all of them whitespace, and the one before not |
| `ReviewText.Trim` | app.js:73 | the result has no whitespace at either end and is the slice of the input between its leading and trailing whitespace |
| `ReviewText.TrimKeepsTrimmed` | app.js:76 | trimming text without whitespace at its ends changes nothing |
| `ReviewText.CollapseBlankLines` | app.js:76 | the result never holds three line feeds in a row, is no longer than the input, and keeps its first and last characters |
| `ReviewText.CollapseSuffixIsKept` | app.js:76 | from any position that no line-feed run crosses, the collapse equals the reference filter |
| `ReviewText.CollapseIsReference` | app.js:76 | the collapse drops exactly the third and later line feeds of each run and keeps every other character in order, so single line feeds stay and each run of two or more becomes exactly two |
| `ReviewText.CollapseKeepsClean` | app.js:76 | text with no three line feeds in a row is left unchanged |
| `ReviewText.CollapseIdempotent` | app.js:76 | collapsing twice gives the same text as collapsing once |
| `ReviewText.Normalise` | app.js:73-76 | the cleaned review has no whitespace at either end, no three line feeds in a row, and is never longer than the generated text |
| `ReviewText.SecondTrimIsNoOp` | app.js:73-76 | the trim on line 76 removes nothing once the trim on line 73 has run |
| `ReviewText.NormaliseFixedPoints` | app.js:73-76 | clean-up leaves a text unchanged exactly when it already has clean ends and no three line feeds in a row |
| `ReviewText.NormaliseIdempotent` | app.js:73-76 | cleaning up a cleaned review changes nothing |
| `ReviewCache.ReviewStore.Find` | app.js:50-53 | finds a review iff the table has a row for exactly this prompt, and then returns that row's review |
| `ReviewCache.ReviewStore.Insert` | app.js:79-82 | the table gains the row prompt -> review and nothing else changes |
| `ReviewCache.ReviewStore.Complete` | app.js:61-70 | the generator is called once, with the prompt, and its text is returned |
| `ReviewCache.ReviewStore.GetOrGenerate` | app.js:50-84 | hit: the stored review is returned verbatim, the generator is not called, the table is unchanged; miss: the generator is called exactly once, the table gains exactly prompt -> cleaned review, and that review is returned; afterwards the prompt maps to the returned review, and a table of cleaned reviews stays one |
| `ReviewCache.ReviewStore.GenerateReview` | app.js:18-84 | an invalid persona fails with the handler's message and leaves the table and the generator untouched; a valid one answers with the review served for the persona's prompt, as in the hit and miss cases |
| `ReviewCache.ReviewStore.RepeatRequest` | app.js:18-84 | the same request twice returns the same answer both times; an invalid persona fails both times and changes nothing; for a valid one the prompt maps to the answer afterwards, a prompt already stored leaves table and generator untouched, and a new one calls the generator exactly once and adds exactly that one row, so the second request is a hit |

## Left out

- Azure Key Vault (app.js:23-27) and the OpenAI client set-up (app.js:29-30): network services; the model has no credentials.
- The completion request parameters (engine, temperature, token limit and the rest, app.js:61-70) and the extraction of `choices[0].text`: the generator is a function from prompt to text.
- Failures of the secret store, the database or the completion service: in the model the generator and the table never fail, so the "upstream failure" error path is not modelled.
- The SQL connection and pool lifecycle (app.js:43-49, app.js:87), including the hit path returning before `sql.close()`: resource handling, not behaviour.
- SQL collation in `WHERE prompt = @prompt` (app.js:52): a server collation may compare case-insensitively or ignore trailing spaces; the model compares prompts exactly.
- Duplicate rows and the choice of `recordset[0]` (app.js:55): a map holds at most one review per prompt.
- Two concurrent misses for the same prompt both inserting: requests are modelled one at a time. `Insert` on a prompt already present overwrites it in the map, which a single request never does.
- Express routing, JSON parsing, the HTTP 500 mapping of every error and `app.listen` (app.js:9-15, app.js:89-99): HTTP plumbing. `GenerateReview` returns the error message as a `Failure` value instead.
- JavaScript's interpolation of `undefined` for a missing body field: the fields are strings in the model.
