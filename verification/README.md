# BioBank DAO core, modelled in Dafny

BioBank DAO is a single React component (`frontend/web/src/App.tsx`) that
lets a wallet owner submit a numeric biomedical value to a key-value ledger
contract. The value is stored as an "FHE" token. The owner can then mark
the submission verified or rejected, and can see the value again after
signing a challenge. Taken out of the component, the logic forms a small,
sequential core. This project models that core with immutable datatypes and
pure functions, and proves its properties:

- **Token codec** (`codec.dfy`, `base64.dfy`). A token is `"FHE-"` followed
  by `btoa` of the number's decimal text. Decoding strips exactly that tag
  and runs `atob`; text without the tag goes to `parseFloat` unchanged.
  `FHECompute` decodes, scales by 1.1, 0.9 or 2 (any other name leaves the
  value alone) and encodes again. `btoa`/`atob` are modelled in full: the
  alphabet of section 4 of RFC 4648, padding, and the "forgiving-base64
  decode" of the WHATWG Infra standard. The round trip is proved down to the
  bits.
- **Record store** (`store.dfy`, `json.dfy`). The ledger is a
  `map<string, Bytes>`. `record_keys` holds the JSON id list and
  `record_<id>` holds each record blob. `loadRecords` tolerates a missing,
  blank or unparsable index and skips unreadable blobs. It fills the
  `description` and `status` defaults and sorts newest first.
  `submitRecord` is two ordered transactions: the blob, then the index read
  back and extended by the new id.
- **Status transitions** (`lifecycle.dfy`). `verifyRecord` and
  `rejectRecord` rewrite the blob through an object spread. They do not
  check the current status or the caller. The UI guard (owner,
  case-insensitively, and status `pending`) is a separate predicate, just as
  the row rendering is separate in the source.
- **Derived views and the decryption gate** (`dashboard.dfy`, `gate.dfy`).
  The per-status counts, the top-five verified contributors, the fixed-order
  challenge string, and `decryptWithSignature`.

The ledger contract, the wallet and the clock are parameters. A `Session`
records whether the wallet is connected, its address, whether a read-only
and a signing contract handle can be had, and how many transactions the
user approves before rejecting one. A `Syntax` holds the UTF-8 and
`JSON.parse`/`JSON.stringify` conversions as opaque functions. A
`NumberSyntax` holds `parseFloat` and `toString`. The signer is a function
from message to optional signature. `Date.now()`, `Math.random()` and the
generated public key are plain arguments. The lemmas that need the
conversions to behave like the real ones assume `Json.Coherent` (UTF-8
text and JSON id lists round-trip, and blank text is not JSON) and, only
for the values they are about, `Json.ObjectReadsBack` (one object survives
`JSON.stringify` then `JSON.parse`) and `Codec.ReadsBack` (`parseFloat`
reads `toString`'s text back as the same number). JSON numbers are doubles
and the model's are reals, so a read-back for every object or every number
would ask for more than any conversion can give; it is asked pointwise.
The module `Witness` shows these hypotheses can be met:
`Witness.CoherentIsSatisfiable` builds toy conversions that satisfy
`Json.Coherent` and read back any one chosen object, and
`Witness.ReadsBackIsSatisfiable` does the same for any one number.

Facts about App.tsx that a reader might not expect, all modelled as
written:

- `verifyRecord`/`rejectRecord` check neither the current status nor the
  caller. A rejected record can be verified again
  (`Lifecycle.VerifyAfterReject`). Only the button rendering checks owner
  and status (`Lifecycle.OffersActions`).
- A tagged payload that is not a number does not fail: `parseFloat` yields
  NaN. Only `atob` can throw.
- Category and value validation belongs to the create form, not to
  `submitRecord` (`Store.FormAccepts`).
- `decryptWithSignature` returns `null` on every failure.
- `verifyRecord` and `rejectRecord` never call `isAvailable`. Only
  `loadRecords` does.
- A stored index that parses to JSON other than an array makes
  `keys.push` throw after the blob is written, leaving an orphaned record
  (`Store.OrphanWhenIndexRejected`). The listing walks a JSON string index
  character by character and keeps its old list for any other non-array
  (`Store.StringIndexListsCharacters`, `Store.LoadRecords`).

## Model

| member | source | states |
|---|---|---|
| Base64.Btoa | frontend/web/src/App.tsx:21 | `btoa` succeeds exactly on one-byte characters; its output is a multiple of four characters, all from the alphabet or `=` |
| Base64.Atob | frontend/web/src/App.tsx:26 | `atob` throws on any character that is neither in the alphabet, ASCII whitespace nor `=`; whatever it returns consists of one-byte characters |
| Base64.BytesRoundTrip | frontend/web/src/App.tsx:21-26 | decoding the 6-bit groups of any byte string gives the bytes back, and never leaves a dangling single group |
| Base64.StripPaddingOfBtoa | frontend/web/src/App.tsx:21-26 | the `=` padding `btoa` adds is exactly what `atob` removes |
| Base64.AtobBtoa | frontend/web/src/App.tsx:20-28 | `atob(btoa(s)) == s` for every string `btoa` accepts |
| Codec.EncryptText | frontend/web/src/App.tsx:20-22 | encoding succeeds exactly when the text fits in bytes; the token always starts with `FHE-`, and is only the tag when the text is empty |
| Codec.Decrypt | frontend/web/src/App.tsx:24-29 | decoding fails exactly when the payload fails (`atob` throws); otherwise it is `parseFloat` of the payload |
| Codec.PayloadOfTagged | frontend/web/src/App.tsx:25-26 | the four-character tag is removed exactly and the rest is base64-decoded |
| Codec.PayloadOfUntagged | frontend/web/src/App.tsx:25-28 | a token without the tag is handed to `parseFloat` unchanged |
| Codec.TextRoundTrip | frontend/web/src/App.tsx:20-28 | decoding a token built from a text recovers the text, and the token is tagged |
| Codec.NumberRoundTrip | frontend/web/src/App.tsx:20-29 | `FHEDecryptNumber(FHEEncryptNumber(v)) == v` for every number whose `toString` text `parseFloat` reads back as itself |
| Codec.Scale | frontend/web/src/App.tsx:35-47 | finite stays finite, NaN stays NaN, infinities are unchanged, and any unknown operation is the identity |
| Codec.ComputeSpec | frontend/web/src/App.tsx:31-50 | `FHECompute` fails exactly when the input does not decode; its result is tagged and decodes to the decoded value scaled by the named factor, for any scaled value whose text reads back |
| Codec.UnknownOperationPassesThrough | frontend/web/src/App.tsx:45-46 | an unknown operation name yields a token that decodes to the original value, whenever that value's text reads back |
| Decimal.ValueOfShow | frontend/web/src/App.tsx:204 | reading back the decimal text of a number gives the number |
| Decimal.ShowInjective | frontend/web/src/App.tsx:204 | different numbers have different decimal texts |
| Sorting.Insert | frontend/web/src/App.tsx:154 | inserting adds exactly the one element (multiset) |
| Sorting.InsertSorted | frontend/web/src/App.tsx:154 | inserting a ranked element into a non-increasing sequence keeps it non-increasing |
| Sorting.SortBy | frontend/web/src/App.tsx:154 | the sort is a permutation, and when every element has a numeric key the keys are non-increasing |
| Json.OrDefault | frontend/web/src/App.tsx:147-148 | `x \|\| "default"` keeps a truthy value and falls back otherwise |
| Store.FromObject | frontend/web/src/App.tsx:141-149 | the listed record takes its id from the index key and copies the four fields; a falsy `description` becomes `""` and a falsy `status` becomes `pending` |
| Store.RecordAt | frontend/web/src/App.tsx:137-150 | an empty blob yields no record; a record read under an id carries that id |
| Store.ReadObject | frontend/web/src/App.tsx:218-220 | "Record not found" exactly when the blob is empty; a decode or parse failure is the only other error |
| Store.Collect | frontend/web/src/App.tsx:135-153 | a record is collected exactly when some index entry reads as it; there are no more records than ids |
| Store.CollectAppend | frontend/web/src/App.tsx:135-153 | the loop handles each id on its own: collecting two id lists side by side is collecting each |
| Store.SkipUnreadable | frontend/web/src/App.tsx:136-152 | an id whose blob is empty or unparsable is skipped without disturbing the ids before or after it |
| Store.ListRecords | frontend/web/src/App.tsx:154 | the listing is a permutation of the collected records; with numeric timestamps it is ordered newest first |
| Store.ListingOrderExample | frontend/web/src/App.tsx:154 | records stamped 10, 30, 20 are listed 30, 20, 10 |
| Store.ListedExactly | frontend/web/src/App.tsx:126-155 | a record is listed exactly when an entry of the index reads as it |
| Store.UnreadableIndexListsNothing | frontend/web/src/App.tsx:126-135 | an index that is missing, undecodable, blank or does not parse as JSON lists no record at all |
| Store.LoadRecords | frontend/web/src/App.tsx:119-158 | an unavailable ledger, or an index that parses to a non-array the loop cannot walk (an object, `null`, a number, a boolean), yields no new list (the old one stays); otherwise the list is a permutation of the readable records, newest first when every timestamp is numeric |
| Store.StringIndexListsCharacters | frontend/web/src/App.tsx:131-137 | an index that parses to a JSON string is walked by `for…of` one character at a time, so the listing reads the records under one-character ids, and the loop does not throw |
| Store.ReadersAgree | frontend/web/src/App.tsx:178-183 | whenever the submit path's index reader, which has no blank check, yields an array to push onto, it holds the same ids the listing's reader walks, and that loop does not throw |
| Store.IndexReadsBack | frontend/web/src/App.tsx:126-133 | an index written by the app reads back as exactly the ids written |
| Store.BlobReadsBack | frontend/web/src/App.tsx:137-149 | a blob written by the app, whose JSON reads back, is listed as the record of the written object |
| Store.FormAccepts | frontend/web/src/App.tsx:649 | the form is accepted only with a non-empty category and a value that is neither NaN nor 0; any other value is accepted |
| Store.RecordKeyIsNotIndexKey | frontend/web/src/App.tsx:168 | a generated `Date.now()-suffix` id can never make `record_<id>` equal `record_keys` |
| Store.NewRecordObject | frontend/web/src/App.tsx:169-176 | the new blob holds the token, `pending`, the timestamp in whole seconds, the category and description, and the owner only when the address is defined |
| Store.Apply | frontend/web/src/App.tsx:177-185 | a sequence of `setData` transactions leaves every key it does not write as it was |
| Store.SubmitWrites | frontend/web/src/App.tsx:177-185 | a submission attempts the blob `record_<id>` first, then `record_keys` holding the ids read after the blob plus the new id; when that index is not an array, `keys.push` throws and only the blob is attempted |
| Store.Submit | frontend/web/src/App.tsx:160-198 | a submission succeeds exactly when connected, encodable, with a signer, the stored index is an array (or unreadable, counting as empty) and both transactions approved; it returns the generated id; a non-array index (`{}`, `null`, a number, a string) fails exactly when the blob transaction was approved; it touches no key but the blob and the index, never changes the index on failure, and every failure except a rejected transaction and a non-array index leaves the ledger unchanged |
| Store.SubmitLedger | frontend/web/src/App.tsx:177-185 | after a successful submission the ledger is the old one with the blob written and then the index set to the old ids plus the new id |
| Store.IndexAfterSubmit | frontend/web/src/App.tsx:178-185 | after a submission the listed index is the old listed index (empty if unreadable) with the new id appended last, nothing removed or reordered |
| Store.SubmittedRecordIsListed | frontend/web/src/App.tsx:165-187 | after a submission the new record is listed, pending, with a token that decodes to the submitted value, whenever the new blob's JSON and the value's text read back |
| Store.OrphanWhenIndexRejected | frontend/web/src/App.tsx:177-193 | if the user rejects the index transaction, or the stored index is not an array so `keys.push` throws, the submission reports that failure, the index bytes and the listed ids are unchanged, and the stored blob reads as a record whenever its JSON reads back |
| Lifecycle.VerifiedObject | frontend/web/src/App.tsx:227 | the spread sets `status` to `verified` and `data` to the new token and keeps every other property |
| Lifecycle.RejectedObject | frontend/web/src/App.tsx:248 | the spread sets `status` to `rejected` and keeps every other property |
| Lifecycle.VerifiedToken | frontend/web/src/App.tsx:222 | the new token exists exactly when `data` is a string that `FHECompute(…, 'increase10%')` accepts |
| Lifecycle.Verify | frontend/web/src/App.tsx:212-237 | verification succeeds exactly when connected, a read-only handle exists, the blob reads, the token computes, a signer exists and the user approves, whatever the current status; on success only the record's blob is rewritten; an empty blob fails with not-found; any failure leaves the ledger unchanged |
| Lifecycle.Reject | frontend/web/src/App.tsx:239-257 | rejection succeeds exactly when connected, with a signer, the blob reads and the user approves, whatever the current status; on success only the record's blob is rewritten; an empty blob fails with not-found; any failure leaves the ledger unchanged |
| Lifecycle.WriteObjectReadsBack | frontend/web/src/App.tsx:228 | a rewritten blob whose JSON reads back reads back as the written object, and no other key changes |
| Lifecycle.VerifyChangesStatusAndData | frontend/web/src/App.tsx:218-228 | after verification (the rewritten object's JSON reading back) the record reads `verified` with a tagged token, the old token decoded, and the new token decodes to the old value times 1.1 whenever that product's text reads back; every other property is unchanged; the index is untouched |
| Lifecycle.RejectChangesOnlyStatus | frontend/web/src/App.tsx:245-249 | after rejection (the rewritten object's JSON reading back) the record reads `rejected` and every other property is unchanged |
| Lifecycle.VerifyAfterReject | frontend/web/src/App.tsx:212-257 | the transitions enforce no state machine: after a rejection the same session verifies the record exactly when it can get a read-only handle, and the record then reads `verified` (both rewritten objects' JSON reading back) |
| Lifecycle.IsOwner | frontend/web/src/App.tsx:259 | the caller owns a record exactly when an address is connected and it equals the owner character by character up to letter case |
| Lifecycle.OwnershipIsEquivalence | frontend/web/src/App.tsx:259 | case-insensitive ownership is reflexive, symmetric and transitive |
| Lifecycle.OffersActions | frontend/web/src/App.tsx:508 | the Verify/Reject buttons are offered exactly for a pending record whose owner string equals the connected address up to letter case |
| Dashboard.CountStatus | frontend/web/src/App.tsx:76-78 | a status count never exceeds the number of records |
| Dashboard.StatusCountsAddUp | frontend/web/src/App.tsx:76-78 | when every status is verified, pending or rejected, the three counts add up to the number of records |
| Dashboard.Bump | frontend/web/src/App.tsx:94-95 | incrementing raises the bumped owner's count by one and leaves every other owner's count alone |
| Dashboard.BumpOwners | frontend/web/src/App.tsx:92-98 | after an increment the owners are the old owners plus the bumped one |
| Dashboard.BumpDistinct | frontend/web/src/App.tsx:92-98 | an increment never makes an owner appear twice |
| Dashboard.Tally | frontend/web/src/App.tsx:92-98 | the tally's count for every owner is that owner's number of verified records |
| Dashboard.TallyOwners | frontend/web/src/App.tsx:92-98 | the tally holds each owner with a verified record, and only those, exactly once |
| Dashboard.TallyEntries | frontend/web/src/App.tsx:92-98 | each tally entry counts its owner's verified records, at least one |
| Dashboard.TopContributors | frontend/web/src/App.tsx:99-101 | at most five entries, with counts non-increasing |
| Dashboard.TopContributorsCountVerified | frontend/web/src/App.tsx:91-101 | each listed contributor's count is their number of verified records |
| Dashboard.TopContributorsAreTheTop | frontend/web/src/App.tsx:91-101 | an owner with verified records is left out only when five are listed, each with at least as many |
| Gate.ChallengeLines | frontend/web/src/App.tsx:204 | the challenge consists of exactly five lines, `publickey`, `contractAddresses`, `contractsChainId`, `startTimestamp` and `durationDays`, in that order |
| Gate.ChallengeDeterminesParams | frontend/web/src/App.tsx:204 | equal challenges come only from equal session parameters |
| Gate.DecryptWithSignature | frontend/web/src/App.tsx:200-210 | a value is returned only when connected, the challenge was signed and the record's `data` is a string; then it is the decoded token, or nothing when decoding throws |
| Gate.SignatureDoesNotBindValue | frontend/web/src/App.tsx:203-207 | any two successful signers give the same value, namely the number the token encodes, whenever its text reads back |

## Left out

- JSX rendering: modals, tabs, the FAQ, the pie chart's percentages and angles (lines 260-282, 284-797). They are presentation only.
- `totalValue` (lines 79-88): a floating-point sum that the component computes but never renders.
- Timers, the 1500 ms sleep, transaction-status notifications, the loading/refresh flags and `alert` calls. These are asynchronous or display-only.
- Error message texts and the "user rejected transaction" message classification. The model keeps the failure kinds (`Store.Error`), not the strings.
- The lost-update race between two concurrent index read-modify-writes. Every operation is modelled as one sequential step.
- `getContractReadOnly`/`getContractWithSigner`, wagmi and rainbowkit are not part of this model. Whether each handle can be had is a `Session` flag (`hasReader`, `hasSigner`); for `loadRecords` the `available` argument covers both a missing read-only handle and `isAvailable()` returning false. A ledger read that throws is not modelled: reads are total.
- `generatePublicKey`, `Math.random()`, `Date.now()` and the `eth_chainId` lookup (lines 52, 105-116, 168, 171) are inputs. The two `Date.now()` calls of `submitRecord` are two separate arguments.
- The UTF-8 codec, `JSON.parse` and `JSON.stringify` stay opaque (`Json.Syntax`). The index parser reports a list of ids, a string, another non-array value, or failure (`Json.IdsParse`). An array holding something other than strings (`[1,2]`, which the app keeps and appends to) is not modelled.
- Codec.Scale: arithmetic is exact over the reals, so `100 * 1.1` is exactly 110 and `1e308 * 2` stays finite where JavaScript overflows to Infinity. The model has no double rounding, no overflow and no `-0`.
- Json.ObjectReadsBack: `JSON.stringify`/`JSON.parse` are abstract. That an object the app writes parses back as itself is a hypothesis about that object, not derived from a model of JSON text.
- Codec.ReadsBack: `toString`/`parseFloat` are abstract. That `parseFloat` reads `toString`'s text back is a hypothesis about each number a lemma concerns, not derived from a model of doubles.
- Base64.Btoa: a JavaScript string of UTF-16 code units, including lone surrogates, is modelled as a Dafny `string` of Unicode scalar values.
- Store.TimeRank: a string timestamp compares as NaN. JavaScript would coerce numeric text to a number.
- Store.ListRecords: when the model ranks a timestamp as NaN (a string, an array or object, or a missing one) the comparator is inconsistent and the standard leaves the order to the engine. The model keeps such elements in place, and sortedness is proved only for timestamps that are JSON numbers, `null` or booleans. JavaScript coerces `[]` to 0, `[7]` to 7 and numeric text to its number; the model ranks every array and string as NaN.
- Lifecycle.IsOwner: `toLowerCase` is modelled for ASCII letters only. Addresses are hexadecimal, so this covers them.
- Store.LoadRecords: the newest-first order is promised only when every timestamp is a JSON number, `null` or a boolean, as for Store.ListRecords.
- Lifecycle.Reject: for a blob that parses to `null` the model reports it malformed and the rejection fails, where the source writes `{status: "rejected"}`. For a blob that parses to a string or an array the model writes `{status: "rejected"}`, where the source also writes the index-keyed elements the spread produces. JSON values are not carried with enough structure to model that spread.
- Decimal.Show: the decimal text is JavaScript's only below 10^21, where it switches to exponent notation. Every integer the app prints (millisecond clock, chain id, seconds, days) is far smaller.
- Lifecycle.OffersActions: a record whose `owner` is not a string makes the source throw while rendering. The model does not offer the buttons for it.
- Dashboard.Tally: every owner that is a JSON array or object is `Compound` in the model, so all of them share one key. A JavaScript `Map` keys each such value by reference, so each record's owner would be its own key.
- The `handleDecrypt` show/hide toggle (lines 747-751) and the re-listing after each write are UI flow. The re-listing is `Store.LoadRecords` applied to the new ledger.
