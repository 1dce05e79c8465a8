# Ed-Fi student loader — Dafny model

This project models the data-shaping core of the proof-of-concept Ed-Fi student
loader `poc/before/load_students.py`. The loader reads student rows from a CSV
file. It turns each row into a `StudentRecord`. For each record it posts a
student body to `/ed-fi/students` and then a student-school-association body to
`/ed-fi/studentSchoolAssociations`. It counts successes and errors over the batch.
Before that it validates its environment configuration and normalises the API
base URL.

The repository's OpenAPI schema analyzer, diagram renderer and domain classifier
are not part of this model. Their source files are not among the files modelled here.
This model covers the loader only.

Files, one module each:

- `wrappers.dfy` (`Wrappers`): `Option`, `Result` and `Outcome`.
- `student_records.dfy` (`StudentRecords`): the `StudentRecord` dataclass.
  It also holds the per-row decoding and the accumulating loop of `read_csv_file` (`ReadRows`).
- `payloads.dfy` (`Payloads`): the student body. It is a pure function
  `StudentPayload`, plus `BuildStudentPayload`, which inserts keys in place the way the source does.
  The module also holds the association body, `AssociationPayload`.
  JSON member names are a `Field` enumeration whose `Name()` gives the exact key text.
- `loader.dfy` (`Loader`): `load_student` (`LoadStudent`) and the batch loop.
  The loop is specified by the function `LoadAll` and implemented by the method `LoadAllStudents`, which keeps the counters.
- `configuration.dfy` (`Configuration`): the validation loop of
  `load_environment_variables` (`LoadEnvironment`), `rstrip('/')` (`RStripSlash`)
  and the `EdFiApiClient` constructor's fields.

Abstractions:

- The API is a `Server` oracle: a function from the requests issued so far and
  the next `make_request` POST call to success or failure. Failure stands for any exception that
  `make_request` raises. The request trace is threaded explicitly and records
  `make_request` calls, not network sends: the re-send after a 401 happens
  inside one call.
- `float(...)` and `int(...)` are parameters (`Conversions`, and `toInt` for
  the timeout). They return `None` where Python raises `ValueError`.
- The environment is a `map<string, string>`. `sys.exit(1)` is the error result
  `MissingVariables(names)`.
- A CSV row is a `map<string, string>`. A missing column (`KeyError`) makes the
  whole read fail with `MissingColumn`, naming the first missing column in the
  order the record's fields are evaluated.
- `load_all_students` returns nothing and logs its counts. Here it returns a `Summary` with
  the two counts and the requests issued.

Behaviour worth noting, as the code does it: when `fullTime` does not convert,
the student has already been posted; the association is then never posted, and
the record counts as an error.

## Model

| member | source | states |
|---|---|---|
| StudentRecords.FirstMissing | poc/before/load_students.py:175-187 | the result is None iff every listed column is in the row; otherwise it is the first listed column the row lacks |
| StudentRecords.HasColumnsListed | poc/before/load_students.py:176-186 | a row has every column the record reads iff it has each entry of `Columns` |
| StudentRecords.OptionalCell | poc/before/load_students.py:180-183 | an optional cell is None iff it is empty, otherwise it holds the cell text |
| StudentRecords.DecodeRow | poc/before/load_students.py:175-187 | decoding succeeds iff the row has all eleven columns; a failure names the first listed column that the row lacks |
| StudentRecords.DecodeRowFields | poc/before/load_students.py:175-187 | the seven required columns are copied verbatim; each of the four optional names is None iff its cell is empty, and otherwise holds the cell |
| StudentRecords.DecodeRows | poc/before/load_students.py:169-196 | no ensures of its own; DecodeRowsSuccess and DecodeRowsFailure state its result: one record per row in file order iff every row decodes, else the error of the first failing row |
| StudentRecords.DecodeRowsSuccess | poc/before/load_students.py:169-191 | reading succeeds iff every row decodes; then there is one record per row, in file order, and record i is row i decoded |
| StudentRecords.DecodeRowsFailure | poc/before/load_students.py:171-196 | a failed read reports the error of the first row that fails, and every earlier row decodes |
| StudentRecords.ReadRows | poc/before/load_students.py:169-191 | the accumulating loop returns exactly `DecodeRows(rows)`: every record in order, or the first row's error |
| Payloads.FieldNameRoundTrip | poc/before/load_students.py:200-236 | every JSON member name parses back to its field, so distinct fields have distinct key texts |
| Payloads.StudentPayload | poc/before/load_students.py:198-217 | no ensures of its own; StudentPayloadFields gives its keys and values and StudentPayloadSize its size, and BuildStudentPayload is proved equal to it |
| Payloads.StudentPayloadFields | poc/before/load_students.py:200-215 | the body always holds studentUniqueId, birthDate, firstName and lastSurName, equal to the record's unique id, birth date, first name and last name; middleName, personalTitlePrefix, preferredFirstName and preferredLastSurname are each present iff their field is non-empty, and then carry it; no other key appears |
| Payloads.StudentPayloadSize | poc/before/load_students.py:200-217 | the body has 4 keys plus one per non-empty optional field, so between 4 and 8 |
| Payloads.SampleStudentPayloadSize | poc/before/test_loader.py:53-79 | the smoke script's record, which has a middle name and a title only, yields a 6-key body |
| Payloads.BuildStudentPayload | poc/before/load_students.py:198-217 | building the dict and inserting keys in place yields exactly `StudentPayload(s)` |
| Payloads.GradeLevelDescriptor | poc/before/load_students.py:222 | the descriptor is the Ed-Fi grade-level URI prefix followed by the grade level, and nothing else |
| Payloads.DescriptorRoundTrip | poc/before/load_students.py:222 | reading the grade level back from a descriptor gives the grade level; a string reads back as a grade level iff it is that grade level's descriptor |
| Payloads.AssociationPayload | poc/before/load_students.py:219-239 | no ensures of its own; AssociationPayloadErrors states when it fails and with which conversion error, and AssociationPayloadShape gives its five keys and their values |
| Payloads.AssociationPayloadErrors | poc/before/load_students.py:224-233 | the association body exists iff both `float(fullTime)` and `int(schoolId)` succeed; the `fullTime` error is reported first |
| Payloads.AssociationPayloadShape | poc/before/load_students.py:222-237 | the body has exactly the five keys; studentReference.studentUniqueId is the unique id; schoolReference.schoolId is the converted id; entryDate is the enrollment date; entryGradeLevelDescriptor is the prefix plus the grade level; fullTimeEquivalency is the converted fullTime |
| Loader.LoadStudent | poc/before/load_students.py:241-270 | one call issues one or two requests |
| Loader.LoadStudentSteps | poc/before/load_students.py:245-270 | the student POST, to `/ed-fi/students`, comes first; if it fails, nothing else is sent and the call raises that failure; the association is posted to `/ed-fi/studentSchoolAssociations` iff the student POST succeeded and the body could be built; the call passes iff both POSTs succeed |
| Loader.LoadStudentOrder | poc/before/load_students.py:245-266 | an association POST is only ever the second request, after a student POST that succeeded |
| Loader.LoadStudentPostsOnce | poc/before/load_students.py:250-254 | one call makes exactly one `make_request` call for the record's student body |
| Loader.LoadEach | poc/before/load_students.py:279-285 | the batch yields one outcome per record |
| Loader.LoadAll | poc/before/load_students.py:279-285 | no ensures of its own; LoadEach gives it one outcome per record, LoadAllOutcomeAt gives record i's outcome, LoadAllAttemptsEveryRecord its student calls, and LoadAllStudents is proved to issue its requests and count its outcomes |
| Loader.LoadEachAppend | poc/before/load_students.py:279-285 | loading `a + b` is loading `a` and then loading `b` after `a`'s requests, so records follow one another with no interleaving |
| Loader.LoadAllOutcomeAt | poc/before/load_students.py:279-285 | record i's outcome is the outcome of `load_student` on record i, after the requests of records 0..i-1 |
| Loader.LoadEachStudentPosts | poc/before/load_students.py:279-285 | if each step makes one student `make_request` call for its record, the batch's student calls carry the record bodies in file order |
| Loader.LoadAllAttemptsEveryRecord | poc/before/load_students.py:279-285 | whatever the server answers, the batch makes exactly one student `make_request` call per record, in file order, so a failure never stops later records |
| Loader.CountsPartition | poc/before/load_students.py:276-287 | every outcome counts once, as a success or as an error |
| Loader.LoadAllStudents | poc/before/load_students.py:272-287 | a CSV error propagates; otherwise the requests issued are those of `LoadAll`; success_count is the number of records that passed, error_count the number that raised, and together they equal the number of records read |
| Configuration.MissingVars | poc/before/load_students.py:305-310 | no ensures of its own; MissingVarsMembers gives its members and MissingVarsAppend its order |
| Configuration.PresentVars | poc/before/load_students.py:304-312 | no ensures of its own; PresentVarsContents gives its keys and values |
| Configuration.TimeoutText | poc/before/load_students.py:320 | no ensures of its own; LoadEnvironment's contract states success and the returned timeout in terms of `toInt(TimeoutText(env))`, the value of `EDFI_TIMEOUT` when it is present, even if empty, and "30" otherwise |
| Configuration.MissingVarsMembers | poc/before/load_students.py:307-310 | a name is listed as missing iff it is required and absent or empty |
| Configuration.MissingVarsAppend | poc/before/load_students.py:307-310 | the missing names of `a + b` are those of `a` followed by those of `b`, so they keep the order of `required_vars` |
| Configuration.PresentVarsContents | poc/before/load_students.py:307-312 | env_vars holds exactly the required names that are set, each mapped to its value |
| Configuration.LoadEnvironment | poc/before/load_students.py:297-322 | it succeeds iff no required name is missing and the timeout converts; it exits with the missing names iff some required name is missing; otherwise it fails only on a bad timeout; on success it returns the four variables with their values and the timeout converted from EDFI_TIMEOUT, which defaults to "30" |
| Configuration.RStripSlash | poc/before/load_students.py:50 | the result is a prefix of the input; it does not end in `/`; the removed suffix is all `/` |
| Configuration.RStripSlashIdempotent | poc/before/load_students.py:50 | stripping twice equals stripping once |
| Configuration.RStripSlashUnique | poc/before/load_students.py:50 | any prefix that does not end in `/` and leaves only `/` behind is the stripped result |
| Configuration.NewApiClient | poc/before/load_students.py:48-54 | the client's base URL is the argument without trailing slashes; the other fields are kept as given |

## Left out

- The HTTP client (`discover_endpoints`, `authenticate`, `make_request`, lines 60-158) is replaced by the `Server` oracle. This covers token handling, the retry on 401 and URL joining.
- File opening and CSV parsing (lines 171-173) are left out; rows are given as maps. A short row, whose missing cells the CSV reader fills with `None`, is not modelled; every cell is a string.
- `float(...)`, `int(...)` and `int(os.getenv('EDFI_TIMEOUT', '30'))` are parameters: Python's number parsing cannot be seen here. Floats are modelled as `real`, so double rounding is not captured, and the values `float` accepts for "nan", "inf" or "1e400" (NaN and infinities) have no `real` counterpart.
- `load_environment_variables` adds the timeout to the same dict as the string variables; the model returns it as a separate `Settings.timeout` field.
- Logging, `load_dotenv`, `os.getenv`, `sys.exit` and `main` (lines 21-26, 293-364) are process I/O. The environment is a map and exit is an error result.
- NewApiClient: takes `timeout` as a required argument; the constructor's default of 30 seconds (line 49) is not modelled.
- `StudentDataLoader.__init__` only stores its client argument. The `EdFiApiClient` constructor sets the four token fields (`access_token`, `token_expiry`, `oauth_url`, `data_management_api_url`, lines 55-58) to None; only the HTTP client, left out above, reads or writes them.
- JSON member order: Python dicts keep insertion order, so the posted bodies list their members in the order written and inserted (lines 200-215, 227-237). `Payload` is a map and does not keep that order. JSON member order carries no meaning.
- `poc/before/test_loader.py` is print-based; only its sample record is used, in `Payloads.SampleStudentPayloadSize`.
