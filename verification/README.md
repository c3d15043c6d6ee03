# Load matching, carrier verification and call webhooks, in Dafny

This project models the logic core of a freight-brokerage backend and proves properties of it. The core has three parts.

- **`HybridLoadRetriever`** (`retrievers.dfy`, built on `scores.dfy`) ranks available loads against a carrier's search criteria. It builds one document per load from its text fields, joined by single spaces. Each document is lower-cased and split on whitespace for a BM25 index and embedded with a sentence encoder. A search joins the truthy query values into one text and returns `[]` when that text is blank. Otherwise it divides the BM25 scores by their maximum when that maximum is positive, fuses the two scores with weights, and returns the `top_k` best loads with their fused scores. The retriever is an immutable value.
  - The BM25 index, the encoder, `util.cos_sim` and Python's `str()` of a non-string value are parameters (`Backends`).
  - The only thing required of BM25 is one score per corpus document, in corpus order.
- **`verify_mc_number`** (`fmcsa.dfy`) strips the motor-carrier number and refuses to run without a registry key. It asks the FMCSA registry and turns the reply into a `FMCSAVerifyResponse`. The HTTP request is a parameter that returns the status, the body text and the decoded JSON. As in the code, a JSON `null` (or any non-string) in `allowToOperate` or `outOfService` makes `.upper()` raise. The handler's last `except` turns that into a 500; it is not read like a missing key.
- **The HappyRobot webhook and `update_call`** (`webhooks.dfy`):
  - Guards check the webhook secret, `call_id`, and the MC number needed to create a record. These are pure functions.
  - `update_data` is built one entry at a time by a method proved equal to a specification function.
  - A call record is a class whose `columns` map is changed in place by two `setattr` loops. Each loop's contract states the whole new state.

Python's own semantics that the handlers rely on are modelled in `py_text.dfy` and `py_value.dfy`: `isspace`, `strip`, `split()`, `" ".join`, `s[:n]` with a negative `n`, `f"{n}"`, truthiness, `dict.get`, `a or b` and `str()` of a string.

Points where the code's behaviour is easy to misread, and what the model does about them:

- **Ties.** `np.argsort(scores)[::-1]` makes no promise about the order of equal scores. The model places equal scores in some order, and every ranking property is proved for *any* order by non-increasing score. No tie-break is claimed.
- **Empty corpus.** `BM25Okapi` over no documents raises, so `search` is never reached. `Build` requires at least one load.
- **Negative `top_k`.** `[:top_k]` with a negative `top_k` drops that many elements from the end; it does not give `[]`. `SliceTo` models Python's slice.
- **Missing and falsy fields.** The code reads every field with `getattr`, which raises for a missing attribute. It also turns any falsy value (for example `0`) into `""`, not only `None`. The model requires every load to carry every field, and maps falsy values to `""`.

## Model

| member | source | states |
|---|---|---|
| Retrievers.Build | backend/app/retrievers.py:16-32 | For any non-empty list of loads, the retriever is well-formed: corpus entry `i` and embedding `i` both come from the document of load `i`. With no field list, or an empty one, the fields are exactly origin, destination, equipment_type, commodity_type, notes, in that order. Otherwise they are the given list. There is one embedding per load. |
| Retrievers.CorpusEntryIsFieldTokens | backend/app/retrievers.py:25-28 | The tokens of document `i` are the tokens of load `i`'s field texts, field after field. Joining with single spaces neither merges nor splits a field's tokens. |
| PyText.Tokenize | backend/app/retrievers.py:28 | No token is empty or contains whitespace or an ASCII upper-case letter (A-Z). The token list is empty exactly when the text is blank. |
| PyText.TokenizeConcat | backend/app/retrievers.py:58 | Concatenating the tokens gives the lower-cased text with every whitespace character removed. |
| PyText.TokenizeJoin | backend/app/retrievers.py:26 | Tokenising parts joined by single spaces gives the tokens of each part, in order. |
| PyText.SplitChars | backend/app/retrievers.py:28 | Every character of every token occurs in the split text. |
| PyText.Split | backend/app/retrievers.py:28 | `str.split()` with no argument: every token is non-empty and free of whitespace, and there are no tokens exactly when the text is blank. `SplitConcat` and `SplitAroundSpace` state that the tokens are the text's non-space characters and that a space separates tokens. |
| PyText.Join | backend/app/retrievers.py:26 | `" ".join(parts)`: the parts with exactly one space between neighbours, so its length is the parts' total length plus one per gap. `JoinBlank` and `TokenizeJoin` state how it meets blankness and tokenisation. |
| PyText.Strip | backend/app/retrievers.py:55 | The stripped text is empty exactly when the text is blank. Otherwise it starts and ends with a non-space character. |
| PyText.StripKeepsMiddle | backend/app/routers/fmcsa.py:30 | `strip()` removes only whitespace: the result is a contiguous slice of the input, with blank text before and after it. |
| PyText.JoinBlank | backend/app/retrievers.py:53-55 | Parts joined with spaces are blank exactly when every part is blank. |
| Retrievers.Document | backend/app/retrievers.py:26 | The document of a load is blank exactly when every one of its field texts is blank. |
| Retrievers.QueryText | backend/app/retrievers.py:53 | The query text joins the truthy values' texts, so its tokens are each truthy value's tokens, value after value. |
| Retrievers.QueryBlankIff | backend/app/retrievers.py:53-55 | The query text is blank exactly when every truthy query value renders as blank text. |
| Retrievers.EmptyQueryReturnsNothing | backend/app/retrievers.py:53-56 | An empty query dict, or one whose truthy values are all blank, returns `[]`. |
| Retrievers.LexicalScores | backend/app/retrievers.py:58-60 | There is one BM25 score per load. |
| Retrievers.SemanticScores | backend/app/retrievers.py:62-63 | There is one cosine similarity per load. |
| Scores.Max | backend/app/retrievers.py:65 | The maximum bounds every score and is one of them. |
| Scores.Normalize | backend/app/retrievers.py:65-66 | If the maximum is positive, each score becomes its ratio to the maximum: all are at most 1 and one equals 1. Otherwise the scores are unchanged. The order between any two scores is kept, and non-negative scores stay non-negative. The division happens only with a positive divisor. |
| Retrievers.NormalizedLexical | backend/app/retrievers.py:65-66 | There is one normalised lexical score per load. |
| Retrievers.FusedScores | backend/app/retrievers.py:68 | There is one fused score per load. |
| Retrievers.FusedScoreOfLoad | backend/app/retrievers.py:68 | The fused score of load `i` is `bm25_weight * normLex[i] + embed_weight * cos_sim(query, embedding of load i's own document)`. |
| Scores.FuseWeightIsolation | backend/app/retrievers.py:68 | With `embed_weight = 0` the fused scores do not depend on the semantic scores. With `bm25_weight = 0` they do not depend on the lexical scores. |
| Retrievers.WeightIsolation | backend/app/retrievers.py:68 | For the retriever: with one weight zero, the fused scores are the other signal's weighted scores alone. |
| Scores.ArgsortPrefix | backend/app/retrievers.py:69 | The sort lists each index below `n` exactly once, in ascending score order. |
| Scores.ReversedArgsortRanks | backend/app/retrievers.py:69 | The reversed argsort is a ranking: every index exactly once, with scores non-increasing. |
| Scores.RankingPrefixIsTopK | backend/app/retrievers.py:69 | The first `top_k` entries of any ranking are distinct in-range indices with non-increasing scores. There are `min(top_k, n)` of them for `top_k >= 0`, and no index left out scores above an index taken. |
| Scores.TopIndicesSelectBest | backend/app/retrievers.py:69 | `argsort(scores)[::-1][:top_k]` has the top-k properties above for every score vector and every `top_k`. |
| PyText.SliceTo | backend/app/retrievers.py:69 | `s[:stop]` is a prefix of `s`. For `stop >= 0` it has at most `stop` elements, exactly `stop` unless it is all of `s`. A negative `stop` drops that many elements from the end. |
| Retrievers.Search | backend/app/retrievers.py:34-71 | `top_k`, `bm25_weight` and `embed_weight` default to 5, 0.5 and 0.5. A blank query text gives `[]`. Otherwise result `j` pairs load `i` with its own fused score, for the `j`-th index `i` of the reversed argsort cut to `top_k`, and every such index is in range. |
| Retrievers.SearchReturnsTopK | backend/app/retrievers.py:69-71 | For a non-blank query: there are `min(top_k, N)` results for `top_k >= 0`; the selected indices are distinct; scores are non-increasing; and every load not returned scores no higher than any returned one. |
| PyText.UpperIsLetter | backend/app/routers/fmcsa.py:96-97 | `s.upper()` equals a capital letter exactly when `s` is that letter in either case. |
| Fmcsa.UpperField | backend/app/routers/fmcsa.py:96-97 | An absent key reads as `""`. A present value can be upper-cased exactly when it is a string. The result has the same length as the value. |
| Fmcsa.OperatingStatus | backend/app/routers/fmcsa.py:99-106 | The status is one of OUT_OF_SERVICE, ACTIVE, NOT_ALLOWED and UNKNOWN, and it is OUT_OF_SERVICE exactly when the upper-cased `outOfService` is "Y", whatever `allowToOperate` says. |
| Fmcsa.OperatingStatusDecision | backend/app/routers/fmcsa.py:99-106 | `outOfService` "Y" or "y" gives OUT_OF_SERVICE whatever `allowToOperate` says. Otherwise `allowToOperate` "Y"/"y" gives ACTIVE, "N"/"n" gives NOT_ALLOWED, and anything else gives UNKNOWN, each as an if-and-only-if. |
| Fmcsa.Verify | backend/app/routers/fmcsa.py:30-133 | With no registry key the answer is the 500 "not configured" error. Every response carries the MC number with surrounding whitespace removed, and every error is a 500. With a key, a 404 from the registry for the stripped number gives the "not found in FMCSA database" response. |
| Fmcsa.MissingKeyFailsBeforeLookup | backend/app/routers/fmcsa.py:32-36 | Without a key the handler fails with 500, and the answer does not depend on the registry at all. |
| Fmcsa.Interpret | backend/app/routers/fmcsa.py:49-133 | Every response carries the given MC number. An invalid response has no carrier name and no operating status. Every error is a 500. |
| Fmcsa.Found | backend/app/routers/fmcsa.py:87-144 | An entry that can be read gives a valid response with an operating status, whose details are the whole body. It fails exactly when `allowToOperate` or `outOfService` is present but not a string (so `.upper()` raises), or when `legalName or dbaName` is neither `None` nor a string; the failure is a 500 whose detail starts with "Error verifying MC number: ". |
| Fmcsa.OnlyFoundCarrierIsValid | backend/app/routers/fmcsa.py:49-115 | A valid response, or an error, needs status 200 with a dict body and a non-`None` `content`. Every error is a 500 whose detail starts with "Error verifying MC number: ". |
| Fmcsa.InvalidReplies | backend/app/routers/fmcsa.py:49-133 | Each way of being invalid gives its own detail: an undecodable body (with the decoder's message), a non-dict body, a `None` or absent `content` (with the body), a 404, and any other non-200 status (`error` and `message` only, with the status in decimal). |
| Fmcsa.CopiedTextIsBoundedPrefix | backend/app/routers/fmcsa.py:58 | Raw text copied into an invalid response is a prefix of the body (or of the decoded value's text) of at most 500 characters. An error message is a prefix of the body of at most 200 characters. |
| Fmcsa.FoundCarrier | backend/app/routers/fmcsa.py:49-115 | For every 200 reply whose body decodes to a dict with a non-`None` `content` whose two status fields are strings or absent, the response is valid. Its carrier name is `legalName`, or `dbaName` when `legalName` is falsy. Its operating status follows the decision on the registry's strings, and its details are the whole body. It fails exactly when that name is neither `None` nor a string. |
| Fmcsa.NonDictContentIsUnknown | backend/app/routers/fmcsa.py:89-92 | A `content` that is not a dict is read as `{}`: the response is valid with no name and status UNKNOWN. |
| PyText.DecimalRoundTrip | backend/app/routers/fmcsa.py:128 | The decimal text of a status code reads back as that code, so different codes give different messages. |
| Webhooks.ColumnNamesDistinct | backend/app/routers/webhooks.py:97-99 | Different columns have different attribute names, so writing a column is `setattr` by that name. |
| Webhooks.Admit | backend/app/routers/webhooks.py:33-55 | A refusal is one of the 401 and the two 400s, and it is the 401 exactly when a secret is configured and the header is missing or different. `AdmitIff` states when each 400 happens. |
| Webhooks.WrongSecretRejectedFirst | backend/app/routers/webhooks.py:33-36 | With a secret configured and the header missing or different, the answer is 401 whatever the body holds. |
| Webhooks.AdmitIff | backend/app/routers/webhooks.py:33-55 | A request gets through exactly when the secret matches (or none is set), `call_id` is non-empty, and a new call's `extracted_data` has a truthy `mc_number`. Each 400 happens exactly when its own check is the first that fails. |
| Webhooks.Sections | backend/app/routers/webhooks.py:72-86 | The transcript, classification and extracted-data sections write only webhook columns, never `ended_at` or `duration_seconds`. `SectionEntries` states which entries and values. |
| Webhooks.UpdateData | backend/app/routers/webhooks.py:70-94 | A successful `update_data` writes only webhook columns. A failure is the 500 of an uncaught exception. |
| Webhooks.BuildUpdateData | backend/app/routers/webhooks.py:70-94 | The dict filled entry by entry equals the specification `UpdateData`, including the 500 when `ended_at` does not parse. |
| Webhooks.SectionEntries | backend/app/routers/webhooks.py:72-86 | The keys are exactly `transcript` when the transcript is truthy, `outcome` and `sentiment` when `classification` is truthy, and `extracted_data`, `load_id`, `initial_rate`, `final_rate` and `negotiation_rounds` when `extracted_data` is truthy. Each value is the section's own: the transcript, `classification.get(...)`, the extracted dict, `extracted_data.get(...)` for the load and the rates, and `negotiation_rounds` defaulting to 0. |
| Webhooks.UpdateDataSections | backend/app/routers/webhooks.py:75-86 | In a successful `update_data` only webhook columns appear. `classification` supplies outcome and sentiment, and `extracted_data` supplies itself and `negotiation_rounds` (0 when the key is absent). |
| Webhooks.MetadataKeepsSections | backend/app/routers/webhooks.py:88-94 | The metadata adds only `ended_at` and `duration_seconds` and leaves the other entries as they are. |
| Webhooks.UpdateDataMetadata | backend/app/routers/webhooks.py:88-94 | The request fails exactly when truthy metadata holds an `ended_at` that does not parse. `ended_at` and `duration_seconds` are written exactly when present, the latter as given. |
| Webhooks.AppliedUpdates | backend/app/routers/webhooks.py:97-99 | After the loop, every non-`None` entry is the new value, every other column keeps its value, and no other column appears. |
| Webhooks.Call.ApplyUpdates | backend/app/routers/webhooks.py:97-99 | The new columns are the old ones overwritten by the non-`None` entries. |
| Webhooks.Call.constructor | backend/app/routers/webhooks.py:57-64 | A new record has the given MC number, carrier name and phone number, `negotiation_rounds` 0 and every other column `None`. |
| Webhooks.HappyRobotWebhook | backend/app/routers/webhooks.py:17-108 | A refused request changes nothing. An admitted one reuses the record found or creates a fresh one with the new id. It then fails with the `update_data` error, or answers with the record id after applying the non-`None` updates to exactly the old (or new) columns. A record found is unchanged by any failure. |
| Webhooks.OverwrittenFields | backend/app/routers/webhooks.py:133-135 | After the loop, every provided field (`None` included) is the new value and every other column keeps its value. |
| Webhooks.Call.SetFields | backend/app/routers/webhooks.py:133-135 | The new columns are the old ones overwritten by every provided field. |
| Webhooks.UpdateCall | backend/app/routers/webhooks.py:129-135 | No record gives 404 "Call not found". Otherwise the provided fields are written and the answer is the record id. |

## Left out

- BM25 scoring, the sentence encoder and `util.cos_sim` are parameters. Their formulas and float32/float64 arithmetic are not modelled. Scores are exact reals.
- Python's `str()` of a value that is not a string is a parameter (`render`). So are `datetime.fromisoformat` (`parseIso`) and the message of the validation error raised for a non-string carrier name.
- PyText.Lower and PyText.Upper map only the ASCII letters A-Z and a-z. Python's `lower()` and `upper()` also map non-ASCII letters, and some change the length (`'ß'.upper() == 'SS'`) or give an ASCII letter (`'ſ'.upper() == 'S'`, `'ı'.upper() == 'I'`). The FMCSA decision compares with "Y" and "N" only, and in Python only "y"/"Y" upper-case to "Y" and only "n"/"N" to "N", so the decision is as Python makes it. Tokens of non-ASCII text may differ from Python's.
- PyText.UpperIsLetter is stated for the ASCII case mapping. For Python's mapping it holds of "Y" and "N", the two letters the FMCSA decision uses, but not of every capital letter ("S" and "I" have non-ASCII pre-images).
- Fmcsa.UpperField states that the upper-cased value has the same length as the value. This holds for the ASCII case mapping only; Python's `upper()` can lengthen a string with non-ASCII letters.
- Retrievers.Build requires at least one load and every field on every load, because the source raises in both cases.
- Retrievers.Build accepts loads whose documents are all blank. `BM25Okapi` from `rank_bm25` divides by the vocabulary size when it computes the inverse document frequencies, so it raises on that corpus. The library is not part of this model, and the model's retriever is built anyway. `Retrievers.Document` states when a document is blank.
- Database sessions, queries, `commit` and `refresh` are left out. The record found by `call_id` is an input, and the id of a new row is a parameter. The `started_at`, `created_at` and `updated_at` timestamps the database sets are not columns of the model.
- An exception the webhook does not catch (a failing `fromisoformat`) is modelled as a 500 answer. The framework's error body and logging are not modelled.
- The `httpx` request, its timeout and the mapping of network errors to 504 and 502 are network I/O. They are not modelled, and neither are the debug prints or the `verify_api_key` dependency that guards the FMCSA endpoint.
- The `hasattr(response, "text")` fallback "Unknown error" is not modelled. An `httpx` response always has `text`.
- The response dicts `{"status": "success", ...}` are modelled as the record id they carry.
- `create_call`, the load search and CRUD routes, the metrics routes, seeding, settings and ORM declarations are not part of this model.
