# Transcript-to-protein batch resolver, modelled in Dafny

This project models the HTTP handler `make_inference` in
`ensembl_transcript_to_amino_acid_sequence.py`. The handler receives a batch of
calls. Each call is a list whose first element is an Ensembl transcript
identifier such as `"ENST00000398417.1"`, or an empty value. The handler answers
with one reply per call, in the same order. A falsy identifier (JSON `null` or
`""`) gets `None` and no lookup is made for it. Any other identifier loses its
version suffix (`split(".")[0]`). It is then looked up once against the Ensembl
REST service, and the lookup's answer becomes the reply: the response body when
the response is OK, `None` otherwise.

Modules:

- `Wrappers` (`wrappers.dfy`): `Option` and `Result`.
- `TranscriptIds` (`transcript_ids.dfy`): Python's `split(".")` as `SplitOnDot`, its inverse
  `JoinWithDot`, and `Normalize`, the first piece of the split.
- `SequenceLookup` (`sequence_lookup.dfy`): `ProteinSequenceRequest`, the GET request built at
  lines 8-11, and `ConvertTranscriptId`, which models `convert_transcript_id_to_amino_acid_sequence`
  with the network as an abstract function `get` from requests to responses.
- `Inference` (`inference.dfy`): the batch loop as the method `MakeInference`. It takes the
  lookup as a function parameter `lookup: string -> Option<string>`. Besides the outcome it
  returns `sent`, the keys handed to the lookup in order, one per outbound request. The
  method is proved against two reference functions. `Resolve` gives the replies, or the
  error that ends the batch. `Sent` gives the keys looked up. The lemmas state the
  handler's promises about these two functions.

A call with no elements makes `call[0]` raise an `IndexError`. The handler does not catch
it, so the whole batch fails after the lookups for the earlier calls. The model returns
`Failure(EmptyCall(k))` for the first such call `k`; it does not forbid that input.

A lookup fails when the HTTP library's `r.ok` flag is false (lines 13-14). This is the
library's own test, not a plain "non-2xx status" rule, so the model follows the code: the
response carries `ok` as an opaque boolean.

## Model

| member | source | states |
|---|---|---|
| `TranscriptIds.SplitOnDot` | ensembl_transcript_to_amino_acid_sequence.py:32 | `split(".")` always yields at least one piece, so element 0 always exists |
| `TranscriptIds.JoinSplit` | ensembl_transcript_to_amino_acid_sequence.py:32 | joining the pieces of a split with `.` gives back the identifier: nothing is lost by splitting |
| `TranscriptIds.SplitPieces` | ensembl_transcript_to_amino_acid_sequence.py:32 | no piece contains a period, and there is one piece more than the identifier has periods |
| `TranscriptIds.SplitJoin` | ensembl_transcript_to_amino_acid_sequence.py:32 | splitting a `.`-join of one or more period-free pieces gives back exactly those pieces |
| `TranscriptIds.FirstPiece` | ensembl_transcript_to_amino_acid_sequence.py:32 | piece 0 is a period-free prefix of the identifier that is either all of it or is followed by a period |
| `TranscriptIds.Normalize` | ensembl_transcript_to_amino_acid_sequence.py:32 | the normalised identifier is a prefix of the identifier, has no period, and is the whole identifier or stops at the first period |
| `TranscriptIds.NormalizeUnique` | ensembl_transcript_to_amino_acid_sequence.py:32 | every prefix with those three properties is the normalised identifier, so the contract fixes the result |
| `TranscriptIds.NormalizeWithoutDot` | ensembl_transcript_to_amino_acid_sequence.py:32 | an identifier without a period is passed through unchanged |
| `TranscriptIds.NormalizeIdempotent` | ensembl_transcript_to_amino_acid_sequence.py:32 | normalising twice gives the same as normalising once |
| `TranscriptIds.NormalizeLeadingDot` | ensembl_transcript_to_amino_acid_sequence.py:32 | an identifier starting with a period normalises to the empty text |
| `TranscriptIds.NormalizeDropsVersion` | ensembl_transcript_to_amino_acid_sequence.py:32 | `name.version` with a period-free name normalises to `name`, whatever the version holds |
| `TranscriptIds.NormalizeVersioned` | ensembl_transcript_to_amino_acid_sequence.py:32 | `"ENST00000398417.1"` becomes `"ENST00000398417"` and `"ENST00000257770.2"` becomes `"ENST00000257770"` |
| `SequenceLookup.RequestIdentifiesTranscript` | ensembl_transcript_to_amino_acid_sequence.py:8-11 | the request value built at lines 9-11 by `ProteinSequenceRequest` (the URL string and the fixed header) determines the key: two keys that give the same request value are equal |
| `Inference.FalsyIffNoLookup` | ensembl_transcript_to_amino_acid_sequence.py:28-30 | `IsFalsy` is line 28's truth test (JSON `null` or `""`); an identifier is falsy exactly when a batch holding only it makes no lookup |
| `Inference.Reply` | ensembl_transcript_to_amino_acid_sequence.py:28-34 | a falsy identifier's reply is None (that no lookup is made is stated by `SentIsTruthyKeys` and `FalsyBatchSendsNothing`); an identifier without a period is looked up exactly as given |
| `Inference.ReplyIsLookupOfPrefix` | ensembl_transcript_to_amino_acid_sequence.py:28-34 | a truthy identifier's reply is the lookup's answer, unaltered, for the period-free prefix that is the whole identifier or ends at its first period |
| `Inference.Resolve` | ensembl_transcript_to_amino_acid_sequence.py:25-34 | a successful batch has exactly one reply per call; a failure names a position inside the batch |
| `Inference.Sent` | ensembl_transcript_to_amino_acid_sequence.py:28-33 | no more lookups are made than there are calls |
| `Inference.MakeInference` | ensembl_transcript_to_amino_acid_sequence.py:23-34 | the loop's outcome is `Resolve(calls, lookup)` and the keys it hands to the lookup are `Sent(calls, lookup)`; both are functions of the batch, so the same batch gives the same replies every time |
| `Inference.PrefixFailureIsFinal` | ensembl_transcript_to_amino_acid_sequence.py:25-26 | once an empty call ends a prefix of the batch, the batch fails with that error and no later lookup is made |
| `Inference.ResolveSucceedsIffCallsNonEmpty` | ensembl_transcript_to_amino_acid_sequence.py:25-26 | a batch succeeds if and only if every call has a first element |
| `Inference.ResolveFailsAtFirstEmptyCall` | ensembl_transcript_to_amino_acid_sequence.py:25-26 | a failing batch fails at its first empty call, and the lookups made are exactly those of the calls before it |
| `Inference.ResolveRepliesInOrder` | ensembl_transcript_to_amino_acid_sequence.py:25-34 | replies match calls in number and position; a falsy identifier's reply is None; any other identifier's reply is the lookup of its normalised form, unaltered |
| `Inference.LeadingDotIsLookedUpAsEmpty` | ensembl_transcript_to_amino_acid_sequence.py:28-33 | a non-empty identifier that starts with a period is truthy, so it is still looked up: its reply is the lookup of the empty key, and a batch of that one call makes exactly the lookup `""` |
| `Inference.SentKeys` | ensembl_transcript_to_amino_acid_sequence.py:28-33 | in a batch of non-empty calls, a key is looked up if and only if some call's truthy identifier normalises to it |
| `Inference.SentKeysComeFromCalls` | ensembl_transcript_to_amino_acid_sequence.py:28-33 | every key looked up is the normalised form of some truthy identifier of the batch: no lookup comes from a falsy identifier |
| `Inference.TruthyCallIsSent` | ensembl_transcript_to_amino_acid_sequence.py:28-33 | in a batch of non-empty calls, the normalised form of every truthy identifier is looked up |
| `Inference.TruthyKeys` | ensembl_transcript_to_amino_acid_sequence.py:28-32 | an independent front-to-back reading of the keys of a batch: at most one key per call |
| `Inference.TruthyKeysSnoc` | ensembl_transcript_to_amino_acid_sequence.py:25-32 | reading the keys back to front gives the same list: a call added at the end adds only its own key, at the end |
| `Inference.SentIsTruthyKeys` | ensembl_transcript_to_amino_acid_sequence.py:25-33 | in a batch of non-empty calls, including mixed ones, the lookups made are exactly one per truthy identifier, in call order, and none for a falsy one |
| `Inference.FalsyBatchSendsNothing` | ensembl_transcript_to_amino_acid_sequence.py:28-30 | a batch of only falsy identifiers makes no lookup |
| `Inference.TruthyBatchSendsOnePerCall` | ensembl_transcript_to_amino_acid_sequence.py:32-33 | a batch of only truthy identifiers makes one lookup per call, in call order, even for repeated identifiers (no caching) |
| `Inference.TwoVersionedThenEmpty` | ensembl_transcript_to_amino_acid_sequence.py:25-34 | the batch `[name1.v1], [name2.v2], [""]` replies with the lookups of `name1` and `name2`, then None, and makes those two lookups only |
| `Inference.ReplyThroughEnsembl` | ensembl_transcript_to_amino_acid_sequence.py:6-16 | with `SequenceLookup.ConvertTranscriptId` (the GET request of lines 9-11) plugged in as the lookup, a reply is None iff the identifier is falsy or the response for its normalised form is not OK, and otherwise that response's body verbatim: the two causes of None cannot be told apart |

## Left out

- The JSON request and response: `request.get_json()['calls']` (line 22) and `json.dumps({'replies': ...})` (line 36). The model takes the calls as a sequence and returns the replies as a sequence. A request that is not JSON or has no `calls` key is not modelled.
- The `functions_framework.http` decorator (line 19). It is HTTP runtime plumbing.
- Batches whose shape is not a list of lists. `Call` is a sequence of identifiers, so these are excluded by the types: a `calls` value that is not a list; a call that is a string (`{"calls": ["ENST00000398417.1"]}` makes `call[0]` the character `"E"`, which is then looked up as `"E"`); a `null` or numeric call (Python raises `TypeError`); an object call (Python raises `KeyError`).
- JSON identifiers that are neither `null` nor strings (numbers, booleans, lists). An identifier is `Option<string>`. Python would treat falsy ones such as `0` like `""`, and would raise on `split` for truthy ones.
- The network. `get` is a total function, so a repeated request gets the same response, and the model has no clock or nondeterminism. Transport faults (DNS, connection refused, timeout) raise in the source and abort the batch; they are not modelled.
- The rewriting of the URL by the HTTP library before sending. Line 11 passes the formatted string to the library, which decodes percent-escapes of unreserved characters, quotes spaces as `%20` and treats `#` as the start of a fragment. Two different keys can therefore reach the service as the same request, and a key holding `#` loses `?type=protein`. The model's request is the string before that rewriting.
- What `ok` means for a status code. That test belongs to the HTTP library, which is not part of this model.
- The `Content-Type: text/plain` header is part of the modelled request and is the same for every key. No lemma states anything about the header itself.
- load_rsem_results_into_bq.py as a whole: CSV reading with decimal converters, the data-warehouse client, schemas and load jobs, argument parsing and printed reports. It consists only of calls into libraries that are not part of this model.
