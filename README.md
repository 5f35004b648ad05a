# yafu record model, in Dafny

yafu is a command-line client for a file-hosting service. It uploads
files, asks for their deletion, and keeps a local ledger of upload records
that it can list through a user-supplied output template. This project
models the ledger side of `yafu.py` and proves properties of it. The
modelled parts are:

- the field resolver `RecordExpander`. It answers a field name for one
  record from the record's nine stored keys or from ten derived fields, and
  it maps single-character shortcuts to full names. Derived values are kept
  in a memo, which this model calls `cache`.
- `string.Template.safe_substitute`, which renders a record through the
  output format;
- the listing `yafu_list`, a single pass with an offset counter;
- the construction of an upload record, including the expiry computation
  and the `NOT_AVAILABLE` fallback;
- the script's top level: load the store, run one action, save the store.

Modules, one file each:

| file | module | what |
|---|---|---|
| Common.dfy | `Common` | `Option`, bytes, Python's `str()`/`int()` on non-negative decimals |
| Records.dfy | `Records` | record values and `str()` of them, the record, the parsed options |
| UrlText.dfy | `UrlText` | `posixpath.basename`; `quote_plus` with UTF-8 and its inverse |
| Expansion.dfy | `Expansion` | the resolver: `Resolve` (the specification) and `class RecordExpander` (the memoising object) |
| Template.dfy | `Template` | `Substitute` (the specification of `safe_substitute`) and `Render`, which drives an expander |
| Listing.dfy | `Listing` | `ListSpec` and the loop `ListRecords` |
| Upload.dfy | `Upload` | `NewRecord` and the method `MakeRecord` |
| Cli.dfy | `Cli` | `class RecordStore`, `UploadSession`, the dispatch `Run` |

Time, dates and the service are inputs.

- **Time.** The listing takes `now`. An upload takes the clock read for
  `date_ts` and, separately, the clock that `expire_ts` is counted from.
  The model therefore never assumes `expire_ts == date_ts + duration`.
- **Dates.** Date formatting is a function-valued field `strftime` of the
  resolver's environment `Env`.
- **The service.** Its reply is reduced to the two extracted ids.

Where the program's own description and its code differ, the model
follows the code:

- **`--number N` lists one record too many.** The help text says it lists
  "the last N records" (yafu.py:74). The offset arithmetic at
  yafu.py:152-156 lets through the last `N + 1` records whenever
  `N < len(db)`: five records with `--number 2` list three
  (`Listing.NumberTwoOfFive`). A negative N lists nothing. An N of 0 or
  None lists everything.
- **Unknown shortcuts abort.** An unknown single-character placeholder
  such as `$a` raises a plain `Exception` (yafu.py:99).
  `safe_substitute` swallows only `KeyError`, so the error ends the run.
  Nothing is printed for that record, and the store is not saved
  (`Cli.Run`'s `saved` is `None`).
- **`$h` is never expanded.** The shortcut `h` names `hidden`, which is
  neither a record key nor a derived field. Its lookup is therefore a
  `KeyError`, and `$h` is left as written, while `$hide` shows the flag
  (`Template.HiddenPlaceholderVerbatim`).
- **Saving happens only at a normal end.** The store is saved (pickled)
  only when the script reaches its last line (yafu.py:247).

## Model

| member | source | states |
|---|---|---|
| Common.NatToDecimal | yafu.py:162 | `str()` of a non-negative int is a non-empty run of decimal digits that starts with '0' only for 0 |
| Common.ParseNat | yafu.py:215 | `int()` of decimal text succeeds exactly on non-empty all-digit text |
| Common.DecimalRoundTrip | yafu.py:215 | reading back the decimal text of n gives n |
| Records.ShowIntReadsBack | yafu.py:162 | an integer field such as `date_ts` is printed as its sign and decimal digits, which read back as the integer |
| UrlText.BasenameIsLastSegment | yafu.py:141-142 | `basename(file)` is the longest '/'-free suffix of the path, preceded by a '/' when shorter than the path |
| UrlText.BasenameAfterSlash | yafu.py:141-142 | the text after a final '/' is the basename |
| UrlText.QuoteByte | yafu.py:145 | one byte escapes to a non-empty run of unreserved characters, '+', '%' and upper-case hex digits |
| UrlText.QuotedBytesAlphabet | yafu.py:145 | every escaped byte string uses only that alphabet |
| UrlText.Utf8 | yafu.py:145 | UTF-8 gives 1 to 4 bytes, a single byte equal to the code point exactly for ASCII, and only bytes of 128 or more otherwise |
| UrlText.QuotedAlphabet | yafu.py:145 | `quote_plus` output uses only that alphabet and never contains '/' |
| UrlText.QuoteRoundTrip | yafu.py:145 | unquoting the escape of a byte string gives the bytes back, so escaping loses nothing |
| UrlText.QuotePlusKeepsUnreserved | yafu.py:145 | a name of unreserved ASCII characters is its own escape |
| Expansion.FieldOf | yafu.py:101-147 | a name classified as a field is that field's name |
| Expansion.FieldNamed | yafu.py:101-147 | names and fields correspond one to one |
| Expansion.ShortcutResolvesLikeFullName | yafu.py:95-99 | a mapped single character resolves exactly as the full name it abbreviates |
| Expansion.UnknownShortcutRaises | yafu.py:95-99 | an unmapped single character raises the shortcut error, not a KeyError |
| Expansion.HiddenShortcutIsKeyError | yafu.py:36-41 | 'h' maps to "hidden", whose lookup is a KeyError and memoises nothing |
| Expansion.StoredKeysWin | yafu.py:101-102 | a record key is answered as stored, getVar does not answer it, and the memo gains nothing |
| Expansion.UnknownNameIsKeyError | yafu.py:104-107 | a multi-character name of no field is a KeyError and memoises nothing |
| Expansion.DerivedNamesComputed | yafu.py:104-107 | a derived name is answered by getVar's value and is memoised |
| Expansion.ExpiryStatus | yafu.py:111-116 | `expired` is false under "max" whatever the time, otherwise true iff now > expire_ts (not at the boundary); `expired_str` is "EXPIRED " iff expired and "" otherwise; `$x` is `$expired` |
| Expansion.TypeField | yafu.py:118-119 | `type` is "Private" iff hidden and "Public" iff not |
| Expansion.DateFields | yafu.py:121-128 | `date` formats date_ts; `expire_date` is "NEVER" when expire_ts is 0 and the formatted expire_ts otherwise |
| Expansion.BasenameFields | yafu.py:141-145 | `basename` is the file's basename and `basename_escaped` its quote_plus escape |
| Expansion.NamesAreSegments | yafu.py:141-145 | neither the basename nor its escape contains '/' |
| Expansion.UrlFields | yafu.py:130-139 | the three URLs are built from the record's own stored base_url, id and delete_id and the escaped basename |
| Expansion.UrlLastSegments | yafu.py:130-139 | the last path segment of the direct and info URLs is the escaped basename, and of the deletion URL the delete id when that has no '/' |
| Expansion.UnreservedNameInUrl | yafu.py:130-145 | a file whose name is unreserved ASCII appears in its URLs unchanged (/tmp/a.txt gives …/42/a.txt) |
| Expansion.RecordExpander.constructor | yafu.py:88-91 | a new expander has its record, the run's settings and an empty memo |
| Expansion.RecordExpander.Get | yafu.py:93-107 | `self[name]` answers `Resolve`; the memo grows by exactly the derived fields the lookup needed, stays consistent, and is unchanged when they were all memoised already |
| Expansion.RecordExpander.ComputeVar | yafu.py:109-147 | getVar on a field not yet memoised returns its derived value and memoises exactly its dependencies |
| Expansion.RecordExpander.ExpiredText | yafu.py:115-116 | `expired_str` through `self['expired']` |
| Expansion.RecordExpander.FileUrl | yafu.py:130-136 | `direct_url`/`info_url` through the nested lookups, memoising basename_escaped and basename |
| Expansion.RecordExpander.DeletionLink | yafu.py:138-139 | `deletion_url` through stored keys only, leaving the memo unchanged |
| Expansion.RecordExpander.EscapedBasename | yafu.py:144-145 | `basename_escaped` through `self['basename']` |
| Expansion.RecordExpander.GetField | yafu.py:93-107 | a nested lookup of a field always succeeds with its value; the memo gains exactly the fields it is derived from, and nothing for record keys |
| Template.IdentLength | yafu.py:162 | a placeholder name is the longest run of ASCII letters, digits and '_' |
| Template.NextToken | yafu.py:162 | each scanning step consumes a non-empty prefix of the template, and a name it reads is well formed |
| Template.Render | yafu.py:162 | `format.safe_substitute(expander)` equals `Substitute` over the expander's resolver; the memo stays consistent, gains exactly the derived fields behind the placeholders read up to the first abort (`ScanTrail`), and is left unchanged when all of them were memoised already |
| Template.Scan | yafu.py:162 | one step of the scan: the next placeholder's replacement continues `Substitute` of the whole template, or is its abort, and the memo keys stay on track to `ScanTrail` |
| Template.RenderStep | yafu.py:162 | the specification's side of that step: the next token's replacement splits `Substitute` of the rest and its trail splits `ScanTrail` of the rest |
| Expansion.MemoDeterminedByKeys | yafu.py:93-107 | two consistent memos of the same record with the same keys are equal, since each value is determined by its field |
| Template.Replace | yafu.py:162 | one placeholder is replaced by str() of its value, kept on KeyError, or fails with the shortcut error; the memo gains exactly that name's trail of derived fields and is unchanged when they were memoised already |
| Template.PlainTextUnchanged | yafu.py:162 | text without '$' renders unchanged |
| Template.EscapedDollar | yafu.py:162 | "$$" renders as "$" and scanning resumes after it |
| Template.NamedPlaceholder | yafu.py:162 | "$name" becomes str() of the value, is kept verbatim on KeyError, or aborts on the shortcut error; the inserted value is not rescanned |
| Template.NamedToken | yafu.py:162 | "$name" followed by a non-name character is read as the whole name |
| Template.BracedPlaceholder | yafu.py:162 | "${name}" behaves as "$name" and scanning resumes after the brace |
| Template.UnresolvedVerbatim | yafu.py:162 | a template with no "$$" in which every name the scan reads raises KeyError renders as written |
| Template.UnknownFieldVerbatim | yafu.py:162 | against any record, a placeholder naming no field, such as "$unknownfield", renders as written |
| Template.ShortcutPlaceholder | yafu.py:95-99 | "$b" renders as "$basename", likewise for every shortcut but 'h' |
| Template.ShortcutTargetIsField | yafu.py:36-41 | every shortcut but 'h' names a field |
| Template.ShortcutTargetIsName | yafu.py:36-41 | every shortcut target is a valid placeholder name |
| Template.HiddenPlaceholderVerbatim | yafu.py:37 | "$h" renders as "$h" |
| Template.UnknownShortcutAborts | yafu.py:99 | an unmapped one-letter placeholder ends rendering with the shortcut error |
| Template.BooleanShown | yafu.py:162 | a boolean field renders as "True" or "False" |
| Listing.SelectionStart | yafu.py:152-156 | the first selected index lies within the store |
| Listing.ListRecords | yafu.py:150-162 | the loop prints exactly what `ListSpec` says for the store |
| Listing.ListOne | yafu.py:158-162 | one selected record is rendered iff --show-expired or not expired, with the expiry test skipped under --show-expired |
| Listing.OffsetLetsThrough | yafu.py:152-156 | after its increment the offset is non-negative exactly for the selected records |
| Listing.ListStep | yafu.py:158-162 | a selected record adds its line, nothing, or the abort that ends the listing |
| Listing.ListSelected | yafu.py:158-162 | the loop body for a selected record extends the listing by that record, or returns the listing's final outcome when the record aborts it |
| Listing.AbortSticks | yafu.py:162 | after the shortcut error later records change nothing |
| Listing.SelectionIsSuffix | yafu.py:152-156 | the listed records are a suffix of the store: all of it for number None or 0, else max(0, min(len, number+1)) records |
| Listing.NumberTwoOfFive | yafu.py:74 | five records with --number 2 list the last three, not two |
| Listing.ShownOfMembers | yafu.py:160-161 | a record is among those shown iff it is among the listed records and --show-expired is set or it has not expired |
| Listing.ShowExpiredShowsAll | yafu.py:160-161 | under --show-expired every selected record is shown |
| Listing.ListAllCompletes | yafu.py:160-162 | a listing completes iff every shown record renders |
| Listing.ListAllLines | yafu.py:160-162 | a completed listing prints one line per shown record, in store order, each that record's rendering |
| Upload.UnitSeconds | yafu.py:216 | exactly the letters m, h, d and w are units, each a positive number of seconds |
| Upload.MakeRecord | yafu.py:202-222 | building the record and then setting expire_ts in place gives `NewRecord` |
| Upload.ExpiryCodeRoundTrip | yafu.py:214-218 | a code written as count and unit stands for count times the unit's seconds |
| Upload.ExpiryTable | yafu.py:214-218 | 30m, 1h, 6h, 1d, 3d and 1w are 1800, 3600, 21600, 86400, 259200 and 604800 seconds |
| Upload.ChoicesHaveDurations | yafu.py:63-64 | every offered code except "max" has a positive duration |
| Upload.UploadRecordFields | yafu.py:188-222 | the record copies the options and the date clock, holds each extracted id or `NOT_AVAILABLE`, and has expire_ts 0 for "max" and expiry clock plus duration otherwise |
| Upload.UploadRecordWellFormed | yafu.py:202-222 | for an offered code, expire_ts is 0 exactly when the code is "max" |
| Upload.MalformedCodesRaise | yafu.py:214-216 | a code without a unit letter or a decimal count makes the upload raise |
| Cli.RecordStore.Load | yafu.py:226-229 | a failed load gives the empty store |
| Cli.RecordStore.Append | yafu.py:238 | appending adds the record at the end and changes nothing else |
| Cli.Run | yafu.py:231-247 | upload appends the session's records to the store; delete and list leave it unchanged; the store is saved iff nothing aborted |
| Cli.UploadAll | yafu.py:231-238 | the upload loop produces `UploadSession` and appends exactly its records |
| Cli.StoppedSessionStays | yafu.py:231-238 | after an error the remaining files are neither posted nor recorded |
| Cli.UploadSessionCounts | yafu.py:231-238 | one record and one printed line per completed file, all files unless stopped, one post per file reached |
| Cli.UploadSessionInOrder | yafu.py:231-238 | the j-th appended record is the one built for the j-th file |
| Cli.UploadStepAppends | yafu.py:232-238 | one file appends nothing or its own record |
| Cli.OfferedCodesNeverRaise | yafu.py:214-216 | with an offered expiry code an upload run never stops on the expiry code |

## Left out

- Argument parsing (yafu.py:43-84, 224) is not modelled. The parsed options are a plain `Options` value, and the chosen action is an `Action` value. The defaults are not modelled either, including `DEFAULT_FORMAT`.
- HTTP is not modelled (yafu.py:165-168, 186). An upload's reply is reduced to the two extracted ids. A delete is recorded only as the URL it posts to. A transport error raises and ends the script before the dump (yafu.py:247), so the records of the session's earlier uploads are never saved. `Cli.Abort` has no constructor for it, and `Cli.Run`'s "saved iff nothing aborted" covers only the modelled aborts (a shortcut error and a malformed expiry code).
- The upload post's form fields and body are not modelled (yafu.py:175-186): filename, password, comment, the hide flag, expires, email and the file's contents. `Session.posts` holds only the endpoint URL.
- Reading the uploaded file (yafu.py:172) is file I/O and is not modelled. A missing or unreadable file raises and ends the script before the dump (yafu.py:247), so the records of the session's earlier uploads are never saved. `Cli.Abort` has no constructor for this failure either, and `Cli.Run`'s "saved iff nothing aborted" does not cover it.
- pickle load and dump (yafu.py:226-229, 247) are reduced to two things: "a failed load gives the empty store", and the value `saved` that the dump would write.
- The regular expressions that extract the ids (yafu.py:189, 196) are not modelled. Their results are `Option<string>` inputs.
- `datetime.fromtimestamp(...).strftime(...)` depends on the library, the time zone and the locale. It is the function-valued field `Env.strftime`.
- Wall-clock reads are integer inputs, and the fractional part of `time()` is not modelled. The deadline `expire_ts` is computed by adding a timedelta to naive local time, which can be off by the DST shift; that is not modelled either.
- Listing.ListRecords: compares every record against one `now`, whereas the source reads the clock again for each record.
- Common.ParseNat: reads only non-empty ASCII digit text, while Python's `int()` also accepts a sign, surrounding whitespace and underscores between digits ("+5", " 7", "1_0"); every offered expiry code is plain digits and a unit.
- Upload.ExpiryDuration: accepts only ASCII decimal digits before the unit. Python's `int()` also accepts signs, spaces and underscores. The offered codes are unaffected.
- `print` side effects are not modelled (yafu.py:162, 193, 200, 236). Printed lines are returned as values, and the two warnings about failed id extraction are omitted.
- `string.Template` is modelled as it behaves in Python 3.7 and later: ASCII-only names, case-insensitive, with `$`, `${}` and `$$`.
- `quote_plus` is modelled with the Python 3.7 unreserved set, which includes '~'.
- `quote_plus` encodes with `errors='strict'`, so a file name holding a lone surrogate (as Python decodes non-UTF-8 bytes in a POSIX path) raises `UnicodeEncodeError`. That is not a KeyError, so `$basename_escaped`, `$direct_url` and `$info_url` would end the listing for such a record. Dafny's `char` cannot hold a surrogate, so the model cannot show this.
