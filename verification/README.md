# mongoose-encrypt, modelled in Dafny

`mongoose-encrypt.js` is a Mongoose schema plugin that keeps a set of declared fields
encrypted at rest and still searchable:

- **Writes.** On `save` and `insertMany`, every declared field with a non-empty value is
  replaced by its AES ciphertext (hex). The random IV of that encryption goes into an IV
  sidecar object (`ivField`, default `"ivField"`). The base64 SHA-256 digest of the
  plaintext goes into a digest sidecar object (`hashField`, default `"hashField"`).
- **Updates.** `updateOne`, `updateMany` and `findOneAndUpdate` get the same treatment,
  with the sidecar entries written as dotted keys (`hashField.email`).
- **Queries.** `find` and `findOne` force the sidecars into an explicit projection.
  Inside `$or`/`$and`, an `$eq` test on a declared field becomes a test on the stored
  digest (`hashField.f`). A flat filter `{ f: value }` as written only replaces the value
  by its digest and keeps testing the field `f` itself (see Findings).
- **Reads.** `post('save')`, `post('init')`, `post('insertMany')` and
  `post('aggregate')` decrypt the fields again. `toJSON` hides the sidecars.

The model works on JSON-like values (`Json.Value`). A document is a map from keys to
values; an absent key is JavaScript's `undefined`. JavaScript truthiness, `String(v)`,
loose equality with `''` and `length` (UTF-16 code units, `Json.JsLength`) are spelt
out, because the write-side guard is `value && value != ''` and the salt and IV checks
count length the JavaScript way.

The cryptography is abstract:

- `Cipher.Crypto` holds the cipher pair and the digest as function values.
- The laws the proofs need are the ghost predicate `Cipher.Lawful`: decryption with the
  encryption's 32-character IV inverts it, and a non-empty plaintext never encrypts to
  the empty string.
- `Cipher.LawsSatisfiable` shows that the laws can be met.
- The random IVs are a parameter: `DocCodec.IvSource` for one document, `nat ->
  IvSource` for a batch.

Two other inputs are parameters as well:

- JavaScript's `Object.keys(x)[0]` order is `QueryRewrite.KeyOrder`.
- The key the flat query rewrite writes to is `QueryRewrite.FlatTarget`.

Modules:

| module | file | what it holds |
|---|---|---|
| `Outcomes` | outcomes.dfy | `Option`, `Result` and the errors: thrown messages and JavaScript `TypeError`s |
| `Json` | json.dfy | values, truthiness, `String(v)`, the write guard |
| `Config` | config.dfy | `defaultOptions`, and the configuration predicates `WellFormed` and `DotFree` |
| `Cipher` | cipher.dfy | the abstract crypto and `decryptField` |
| `Paths` | paths.dfy | dotted sidecar keys and MongoDB's dotted-path lookup |
| `DocCodec` | doc_codec.dfy | the save and insertMany encoders; the save, init and insertMany decoders |
| `CodecProofs` | codec_proofs.dfy | what the encoders write, and the save/load and insertMany round trips |
| `UpdateRewrite` | update_rewrite.dfy | `updateRecord` |
| `QueryRewrite` | query_rewrite.dfy | `processFindQuery`, and what a rewritten query finds |
| `SidecarView` | view.dfy | `customDataAggregate`, `post('aggregate')`, `toJSON` |

Most round-trip lemmas assume two things about the configuration:

- `Config.WellFormed`: field names are distinct, and the two sidecar names differ from
  each other and from every field.
- `Config.DotFree`, for the dotted-key rewrites: no name contains a dot, and no field is
  called `$set`.

The plugin checks neither. Outside them, the model still computes what the code does.

## Model

| member | source | states |
|---|---|---|
| Config.DefaultOptions | mongoose-encrypt.js:42-64 | Options are accepted iff the field list is given and non-empty, the salt has a JavaScript length of at least 32, and the algorithm is absent, empty, CTR or CBC. The checks run in that order. An empty field list gives the fields message, a missing salt a TypeError, a short salt the salt message, and a bad algorithm the algorithm message. Accepted options keep every supplied value and default the rest to aes-256-ctr, "hashField", "ivField" and hideIV = true. |
| Config.DefaultOptionsSound | mongoose-encrypt.js:42-64 | Accepted options satisfy every check. The cipher then runs CTR or CBC. Validating accepted options a second time gives the same options. |
| Cipher.DecryptField | mongoose-encrypt.js:25-35 | A non-string stored value comes back unchanged. So does any value whose IV has a JavaScript length under 32. Only a string with a full IV is decrypted. |
| Cipher.DecryptFieldRoundTrip | helpers/hash.js:3-25 | Decrypting a ciphertext with the IV its encryption drew gives back the plaintext. |
| Cipher.SealTruthy | helpers/hash.js:3-13 | The ciphertext of a non-empty plaintext is truthy, so the read hooks' truthiness test selects every field the write hooks encrypted. |
| Json.ShouldEncodeHasText | mongoose-encrypt.js:270-271 | Any value passing `value && value != ''` stringifies to non-empty text. |
| DocCodec.PreSave | mongoose-encrypt.js:266-267 | `pre('save')` cannot fail, and it adds exactly the two sidecar keys: the document's key set becomes its old keys plus `hashField` and `ivField`. The contents of those keys are stated by CodecProofs.PreSaveEncodes. |
| DocCodec.EncodeField | mongoose-encrypt.js:294-300 | One step of the insertMany encoder fails exactly when a guarded value is not a string, because the cipher rejects non-strings. Otherwise the document keeps its keys. |
| DocCodec.EncodeItem | mongoose-encrypt.js:288-308 | A null batch element fails with "Something error", because setting a sidecar on null throws. Every failure carries that message. Any other non-document element passes unchanged, and an encoded document stays a document. |
| DocCodec.PreInsertMany | mongoose-encrypt.js:283-319 | A missing, non-array or empty batch is refused with "List should not be empty". Any other failure is "Something error". An accepted batch keeps its length and element order, and each element is encoded on its own IVs. |
| DocCodec.PostInsertMany | mongoose-encrypt.js:321-336 | The batch decoder keeps length and order. It fails iff some element fails: a null element, or a truthy declared field in a document without an IV sidecar. |
| DocCodec.DecodeField | mongoose-encrypt.js:328-333 | One read-side step fails only on the insertMany path: for a truthy field of a document with no IV sidecar, `doc[ivField][field]` reads a property of undefined or null. The save/init path never fails, and the document keeps its keys. |
| DocCodec.DecodeItem | mongoose-encrypt.js:325-333 | A null batch element fails with a TypeError. Any other non-document element passes unchanged, and a decoded document stays a document. |
| DocCodec.DecodeStored | mongoose-encrypt.js:367-372 | `post('save')`/`post('init')` cannot fail, and they assign only to truthy fields, which already exist, so the document keeps its key set. The values are stated by CodecProofs.DecodeStoredSpec. |
| CodecProofs.PreInsertManyEncodes | mongoose-encrypt.js:291-300 | Every object element of an accepted batch is written exactly as `pre('save')` would write it with that element's IVs: the same digest and IV sidecars and the same ciphertexts. |
| CodecProofs.PreSaveEncodes | mongoose-encrypt.js:261-281 | After `pre('save')`, the digest sidecar holds exactly the digests of the stringified guarded fields, and the IV sidecar holds exactly their IVs. Each guarded field holds its ciphertext and every other key is unchanged. |
| CodecProofs.PreSaveHashIgnoresIv | mongoose-encrypt.js:266-277 | The digest sidecar depends only on the declared fields' values, never on the IVs drawn. This is what makes equal plaintexts searchable. |
| CodecProofs.DecodeStoredSpec | mongoose-encrypt.js:352-373 | `post('save')`/`post('init')` keep the document's keys. They change only declared fields, each to the decryption of its stringified value under its recorded IV (or "" if none). |
| CodecProofs.SaveThenLoadRestores | mongoose-encrypt.js:364-373 | Loading a saved document gives back every truthy declared field as its string form, so a truthy value the write guard skips, such as `[]`, comes back as `""`. Every string field comes back exactly, and all other keys keep their values. |
| CodecProofs.PreInsertManyAccepts | mongoose-encrypt.js:283-319 | A batch is accepted iff it is a non-empty array with no null element and no guarded non-string declared field. |
| CodecProofs.InsertManyRoundTrip | mongoose-encrypt.js:321-336 | Decoding an accepted batch after encoding succeeds. Every element comes back, each document with its original values plus the two sidecars. |
| UpdateRewrite.PreUpdate | mongoose-encrypt.js:96-123 | An array or missing update payload is left as it is. An object payload stays an object, and a failure is always a TypeError. |
| UpdateRewrite.PreUpdateSpec | mongoose-encrypt.js:103-119 | The rewrite fails iff some declared field's chosen source is not a string. The source is the top-level value, else the `$set` value. Otherwise each such field gets its ciphertext plus its digest and IV under `<hashField>.<f>` and `<ivField>.<f>`. No other key changes and `$set` is kept. |
| UpdateRewrite.PreUpdateLeavesOtherFields | mongoose-encrypt.js:103-119 | A declared field with nothing to encrypt keeps its value and its two dotted sidecar keys, present or absent. |
| UpdateRewrite.UpdateThenLoadRestores | mongoose-encrypt.js:103-118 | Apply a rewritten update of a declared field to any stored document whose sidecars are objects or absent. `post('init')` then reads back exactly the plaintext the update carried, and the stored digest sits at `<hashField>.<f>`, where queries look for it. |
| QueryRewrite.ProjectSidecars | mongoose-encrypt.js:128-136 | An explicit projection gains both sidecars (as 1) unless already present. Every given entry is kept and nothing else is added. No projection stays none. |
| QueryRewrite.RewriteClause | mongoose-encrypt.js:148-160 | A clause whose first key is declared and holds an own `$eq` string becomes an `$eq` on the digest under `<hashField>.<key>`. Other clauses pass unchanged. The rewrite fails exactly on null clauses, null operands and non-string `$eq` values, and every failure is a TypeError. |
| QueryRewrite.RewriteClauses | mongoose-encrypt.js:146-164 | The clause list keeps its length and order, and each clause is rewritten on its own. It fails iff some clause fails. |
| QueryRewrite.RewriteFilter | mongoose-encrypt.js:138-190 | A truthy `$or` is rewritten and `$and` dropped. Otherwise a truthy `$and` is rewritten. Both keep all other keys, and each clause of the list is rewritten in place. The rewrite fails exactly when some clause of the list taken fails, always with a TypeError. Without either operator, the flat equality rewrite runs. |
| QueryRewrite.FlatHashField | mongoose-encrypt.js:186-188 | One step of the flat loop fails exactly when the declared value is truthy but not a string, because the digest accepts only strings. |
| QueryRewrite.FlatHash | mongoose-encrypt.js:185-190 | The flat loop fails only with a TypeError. It never drops a filter key that is not one of the declared fields it visited. What it writes is stated by QueryRewrite.FlatHashSpec. |
| QueryRewrite.ProcessFindQuery | mongoose-encrypt.js:125-194 | The hook returns the projection with both sidecars and the rewritten filter. It fails, always with a TypeError, exactly when the filter rewrite fails; under a truthy `$or` (else `$and`) that is exactly when one of its clauses fails. With the `BareField` target it computes the code as written, `{ f: digest }` at line 187. With `HashSidecar` it computes the corrected `{ "<hashField>.<f>": digest }`. |
| QueryRewrite.FlatHashSpec | mongoose-encrypt.js:185-190 | The flat loop fails iff a truthy declared value is not a string. Otherwise each such value's digest sits under its target key, the original key is gone when the target is the sidecar, and all other keys are kept. |
| QueryRewrite.FlatQueryAsWrittenMisses | mongoose-encrypt.js:185-190 | As written, `{ f: p }` becomes `{ f: digest(p) }`. A document saved with `f = p` is then matched only if its ciphertext equals the digest of `p`. |
| QueryRewrite.FlatQueryFindsSaved | mongoose-encrypt.js:185-190 | With the digest aimed at `<hashField>.<f>`, the filter matches a saved document iff the digests of the saved and queried plaintexts agree, whatever IV the save drew. |
| QueryRewrite.EqClauseFindsSaved | mongoose-encrypt.js:148-157 | A rewritten `{ f: { $eq: p } }` clause selects a saved document iff the digests of the saved and queried plaintexts agree. |
| SidecarView.CustomDataAggregate | mongoose-encrypt.js:197-225 | A row with a digest sidecar is decoded and stripped as a record (DecodeAndStrip). Without one, each object column that carries a digest sidecar is decoded and stripped the same way. A row with a digest sidecar loses both sidecars. A row without one keeps its keys and its columns that carry no digest sidecar. Each object column that carries one loses exactly its two sidecars, and no object column keeps a digest sidecar. |
| SidecarView.DecodeAndStrip | mongoose-encrypt.js:200-207 | The record loses exactly its two sidecars. Keys not named in the digest sidecar keep their values. |
| SidecarView.DecodeAndStripRecorded | mongoose-encrypt.js:200-207 | A field named in the digest sidecar that holds the ciphertext of `p` under the IV recorded for it in the IV sidecar reads back as `p`, given lawful crypto. |
| SidecarView.CustomDataAggregateAsWritten | mongoose-encrypt.js:209-213 | As written, `customDataAggregate` throws a TypeError exactly on a row with no digest sidecar and a null column. On every other row it agrees with the intended version. |
| SidecarView.PostAggregate | mongoose-encrypt.js:338-349 | The intended `post('aggregate')` decodes every row in place and keeps the row count. |
| SidecarView.PostAggregateAsWritten | mongoose-encrypt.js:338-349 | As written, `post('aggregate')` keeps the row count, and each row comes back either untouched or decoded. If the first row has a null column, every row comes back untouched; otherwise the first row is decoded. |
| SidecarView.PostAggregateAsWrittenStops | mongoose-encrypt.js:338-349 | As written, rows before the first row with a null column are decoded. That row and every later one come back untouched, because the try/catch encloses the whole loop. |
| SidecarView.PostAggregateAsWrittenAgrees | mongoose-encrypt.js:338-349 | Without null columns, the hook as written and the intended hook agree. |
| SidecarView.AggregateAfterSave | mongoose-encrypt.js:197-207 | Aggregating a saved document gives back the document the user saved, whatever IVs were drawn. |
| SidecarView.AggregateJoinedColumn | mongoose-encrypt.js:208-223 | A row without a digest sidecar whose column holds a saved document gets the user's document back in that column. |
| SidecarView.AggregateNullRowHidesNext | mongoose-encrypt.js:338-349 | As written, a null column in the first row leaves a saved document in the second row encrypted, sidecars included. The intended hook decodes it. |
| SidecarView.ToJson | mongoose-encrypt.js:229-252 | With hideIV, the top-level sidecars are gone. Every object column that carried a digest sidecar is that column minus both sidecars. Every other column is unchanged. Without hideIV, nothing changes. |
| SidecarView.ToJsonAsWritten | mongoose-encrypt.js:235-249 | As written, `toJSON` with hideIV throws a TypeError exactly when a non-sidecar top-level value is null. Otherwise it agrees with the intended view. |
| SidecarView.ToJsonIdempotent | mongoose-encrypt.js:235-249 | Serialising a serialised view changes nothing. |
| SidecarView.SaveLoadViewRestores | mongoose-encrypt.js:229-252 | Saving, loading and serialising with hideIV gives back exactly the document the user saved. |
| SidecarView.ToJsonNullColumn | mongoose-encrypt.js:239-243 | A single null column makes `toJSON` as written throw, where the intended view returns the document unchanged. |

## Left out

- Mongoose's hook plumbing is left out: `next()`, `this`, `setQuery`, `projection()`, `getUpdate()`, `schema.add` and the registration of hooks. Each hook is a function from its input to its output.
- Node's crypto is abstract. Its own errors are not modelled: a salt longer than 32 characters passes validation while AES-256 needs exactly 32 bytes, and a bad ciphertext makes `decipher.final()` throw.
- The random IV and JavaScript's key order are parameters, not modelled.
- The same object appearing twice in one `insertMany` batch is not modelled. The model encodes each element from its own value, while in JavaScript both entries alias one object, so the second pass would see the first pass's ciphertext.
- `pre('insertMany')`'s Promise machinery is left out. It wraps each element in a Promise and awaits `Promise.all` (lines 288-310); the model encodes the elements in order, which gives the same result because each element is encoded on its own.
- The `console.log` calls in the catch blocks (lines 316 and 346) are left out. They only write to the console.
- The IV helper is a function of the field name. A field declared twice therefore reuses the same IV within one document.
- An IV sidecar entry that is not a string is read as the empty string, so the field is left encrypted. The code would hand a truthy non-string IV to the decipher, which throws.
- Assigning `undefined` back to an absent field is left out. The aggregate decoder writes `data[field] = undefined` for a digest-sidecar key the row lacks; the model leaves the key absent.
- Partial mutation before a throw is left out. A failing hook is an `Err`, with no half-updated document; the row that throws in `post('aggregate')` is returned untouched.
- A string-valued `$or`/`$and` is left out. The code iterates it by character, while the model treats every non-array clause list as empty. A string or array clause is modelled as passing through unchanged. Its `Object.keys` are the indices `"0"`, `"1"`, …, so the code would rewrite it if a field were declared under such a name; the model does not cover that collision.
- A primitive batch element is modelled as passing both insertMany hooks unchanged. With a declared field named like one of its properties (`"0"` or `"length"` of a string), the code's guard would see a truthy value: `pre('insertMany')` would fail with "Something error" and `post('insertMany')` would throw at line 330. The model does not cover that collision.
- `for … in` over a string- or array-valued digest sidecar is left out. It visits indices; the model visits only object keys.
- Dates, ObjectIds, Buffers, floating-point and `NaN` numbers are left out. Numbers are integers and stringify in decimal.
- Option types are fixed: `Config.RawOptions` admits only strings, a sequence of names and a boolean. The code accepts any value, so a numeric `salt` passes the length check at line 47 (`undefined < 32` is false), and `hideIV` is only tested for truthiness.
- `fields` given as a non-array with a length is left out. Options are modelled with a sequence of names; an explicit `undefined` option value is treated as absent.
- MongoDB's handling of updates is modelled only in `UpdateRewrite.SetDotted`, which applies one dotted key to a stored sidecar that is an object or absent. The server's refusal of a dotted key into a non-object is left out.
- Plaintext kept under `$set` is left out. When `updateRecord` takes a value from `$set`, it writes the ciphertext at the top level and leaves the plaintext `$set` entry in place. The model shows exactly that; which of the two MongoDB stores is decided by Mongoose's update casting, which is outside the model.
- `QueryRewrite.ProcessFindQuery` takes the flat rewrite's target as a parameter. `BareField` is the code as written, and `HashSidecar` is the intended target. The code itself points to the sidecar: `pre('save')` stores the digest at `<hashField>.<f>` (line 274), and the `$or`/`$and` branches query `${hashField}.${key}` (lines 154 and 173). See Findings.

## Findings

| source | as written | input that shows it | evidently intended | confidence | as-written member | corrected member |
|---|---|---|---|---|---|---|
| mongoose-encrypt.js:185-190 | The flat filter rewrite replaces `customQuery[field]` by the digest, under the bare field name. | `find({ email: "a@b.c" })` after saving `{ email: "a@b.c" }`: the filter becomes `{ email: <base64 digest> }`, but the stored `email` is hex ciphertext, so nothing matches. | Query the digest sidecar, `{ "hashField.email": <digest> }`. That is where `pre('save')` stores the digest (line 274), and the `$or`/`$and` branches already query there (lines 154 and 173). | not executed | QueryRewrite.FlatQueryAsWrittenMisses | QueryRewrite.FlatQueryFindsSaved |
| mongoose-encrypt.js:239-246 | `typeof x == 'object'` admits `null`, and `null.hasOwnProperty(hashField)` throws. | `toJSON` with hideIV on a document `{ nickname: null }`. | Skip `null` columns. | not executed | SidecarView.ToJsonNullColumn | SidecarView.ToJson |
| mongoose-encrypt.js:209-213 | Same test in `customDataAggregate`'s branch for rows without a digest sidecar. Its throw is swallowed by the try/catch around the whole `post('aggregate')` loop. | An aggregate returning `[{ nickname: null }, <saved document>]`: the second row stays encrypted, sidecars included. | Skip `null` columns and decode every row. | not executed | SidecarView.AggregateNullRowHidesNext | SidecarView.AggregateAfterSave |
