# Class-log CSV import, modelled in Dafny

The DataAcquisitionProcedure service replaces the contents of the `class_log`
table with the rows of the CSV files found in an upload directory. A run:

1. empties the table;
2. creates the upload directory if it is missing, noting that in the report;
3. lists the entries whose lower-cased name ends in `.csv`, and stops with
   "no files found" when there are none;
4. imports each file in listing order. The class code is the part of the file
   name before the first `_`. Each data row becomes a `ClassLog` whose id is
   the class code, the date as `yyyyMMdd` and a zero-padded six-digit random
   number. The row is stored at once. Every row counts as exactly one success
   or one error, and a file that fails costs one more error without stopping
   the run;
5. returns a report with one line per file, separators between files, and the
   success and error totals.

The repository contains this pipeline twice. The `sp` service splits it into
helper methods and writes through a mapper's `insert`. The `com` service
writes it inline and saves through a repository's `save`. Both are modelled as
classes (`SpImport.CsvImportService`, `ComImport.CsvImportService`). Their
methods are proved against the value-level definitions in `ImportRules`:

- the entry points and `ProcessCsvFiles` against `Run`, the whole run;
- the file loop against `FilesTally` and `FilesReport`;
- a single file against `FileImport`;
- the row loop against `ImportRows`;
- row parsing against `MapRow`.

Because both variants meet the same `Run`, they are proved to leave the same
table and return the same report for the same directory.

Files:

- `options.dfy` holds `Option`.
- `decimal.dfy` holds `%d` and `%06d` rendering and their read-back.
- `class_log.dfy` holds the `ClassLog` entity (a class) and its `Record` snapshot.
- `store.dfy` holds the table, as a class over a sequence of records.
- `import_rules.dfy` holds the pipeline as functions, with the lemmas about it.
- `sp_service.dfy` and `com_service.dfy` hold the two services, as classes
  whose loops carry invariants tying them to `import_rules.dfy`.

The environment enters as data:

- `UploadDir` describes the directory: whether it exists, the exception
  creating it would throw, and the listing (None for Java's null).
- `CsvFile` is one listed file: its name, its data rows (header already
  skipped, fields already split), and the exception that ended the reading, if
  any.
- `RowEnv` is what the clock, the random generator and the database give while
  one row is handled.

## Model

| member | source | states |
|---|---|---|
| Entity.ClassLog.constructor | src/main/java/com/sp/dataacquisitionprocedure/entity/ClassLog.java:41-53 | the eight arguments land in the like-named fields and `updateDate` is the clock reading taken at construction |
| Entity.ClassLog.GetId | src/main/java/com/sp/dataacquisitionprocedure/entity/ClassLog.java:56-58 | returns the id currently held |
| Entity.ClassLog.SetId | src/main/java/com/sp/dataacquisitionprocedure/entity/ClassLog.java:60-62 | replaces the id and leaves the other eight fields unchanged |
| Entity.ClassLog.GetStudentClass | src/main/java/com/sp/dataacquisitionprocedure/entity/ClassLog.java:64-66 | returns the class code currently held |
| Entity.ClassLog.SetStudentClass | src/main/java/com/sp/dataacquisitionprocedure/entity/ClassLog.java:68-70 | replaces the class code only |
| Entity.ClassLog.GetContent | src/main/java/com/sp/dataacquisitionprocedure/entity/ClassLog.java:72-74 | returns the content currently held |
| Entity.ClassLog.SetContent | src/main/java/com/sp/dataacquisitionprocedure/entity/ClassLog.java:76-78 | replaces the content only |
| Entity.ClassLog.GetCourse | src/main/java/com/sp/dataacquisitionprocedure/entity/ClassLog.java:80-82 | returns the course currently held |
| Entity.ClassLog.SetCourse | src/main/java/com/sp/dataacquisitionprocedure/entity/ClassLog.java:84-86 | replaces the course only |
| Entity.ClassLog.GetTeacher | src/main/java/com/sp/dataacquisitionprocedure/entity/ClassLog.java:88-90 | returns the teacher currently held |
| Entity.ClassLog.SetTeacher | src/main/java/com/sp/dataacquisitionprocedure/entity/ClassLog.java:92-94 | replaces the teacher only |
| Entity.ClassLog.GetCourseType | src/main/java/com/sp/dataacquisitionprocedure/entity/ClassLog.java:96-98 | returns the course type currently held |
| Entity.ClassLog.SetCourseType | src/main/java/com/sp/dataacquisitionprocedure/entity/ClassLog.java:100-102 | replaces the course type only |
| Entity.ClassLog.GetStartDate | src/main/java/com/sp/dataacquisitionprocedure/entity/ClassLog.java:104-106 | returns the start date currently held |
| Entity.ClassLog.SetStartDate | src/main/java/com/sp/dataacquisitionprocedure/entity/ClassLog.java:108-110 | replaces the start date only |
| Entity.ClassLog.GetEndDate | src/main/java/com/sp/dataacquisitionprocedure/entity/ClassLog.java:112-114 | returns the end date currently held |
| Entity.ClassLog.SetEndDate | src/main/java/com/sp/dataacquisitionprocedure/entity/ClassLog.java:116-118 | replaces the end date only |
| Entity.ClassLog.GetUpdateDate | src/main/java/com/sp/dataacquisitionprocedure/entity/ClassLog.java:120-122 | returns the update time currently held |
| Entity.ClassLog.SetUpdateDate | src/main/java/com/sp/dataacquisitionprocedure/entity/ClassLog.java:124-126 | replaces the update time only |
| Entity.RecordText | src/main/java/com/sp/dataacquisitionprocedure/entity/ClassLog.java:128-141 | the text starts with `ClassLog{id='` and the id, ends with the update time and `}`, and its length is the fixed 121 characters of labels plus every field's length |
| Entity.ClassLog.ToString | src/main/java/com/sp/dataacquisitionprocedure/entity/ClassLog.java:128-141 | renders the current field values, framed by `ClassLog{id='` and `}` |
| Store.ClassLogStore.DeleteAll | src/main/java/sp/dataacquisitionprocedure/service/CsvImportService.java:180-184 | the table is empty afterwards |
| Store.ClassLogStore.Insert | src/main/java/sp/dataacquisitionprocedure/service/CsvImportService.java:265 | an accepted insert appends the object's current values; a refused one leaves the table as it was and reports failure |
| Decimal.DecimalString | src/main/java/sp/dataacquisitionprocedure/service/CsvImportService.java:81 | `%d` gives at least one digit, only digits, and no leading zero |
| Decimal.DecimalRoundTrip | src/main/java/sp/dataacquisitionprocedure/service/CsvImportService.java:237-238 | reading back the digits of a count gives the count |
| Decimal.Pad6 | src/main/java/sp/dataacquisitionprocedure/service/CsvImportService.java:289 | `%06d` of a draw below 1000000 is exactly six digits |
| Decimal.Pad6RoundTrip | src/main/java/sp/dataacquisitionprocedure/service/CsvImportService.java:289 | the six digits read back as the draw, and they end with its unpadded digits |
| ImportRules.IndexOf | src/main/java/sp/dataacquisitionprocedure/service/CsvImportService.java:124 | `indexOf` gives -1 exactly when the character is absent, and otherwise an index holding it with no earlier occurrence |
| ImportRules.ExtractStudentClass | src/main/java/sp/dataacquisitionprocedure/service/CsvImportService.java:123-126 | a code exists exactly when the name has an `_` and does not start with one; the code is non-empty, free of `_`, and followed by `_` in the name |
| ImportRules.ClassOfPrefixedName | src/main/java/com/sp/dataacquisitionprocedure/service/CsvImportService.java:169-176 | any non-empty, underscore-free code followed by `_` and anything is extracted back exactly |
| ImportRules.ExampleFileNameClass | src/main/java/com/sp/dataacquisitionprocedure/service/CsvImportService.java:170 | `P1A_ClassLog-20260210-105215.csv` gives `P1A` |
| ImportRules.SplitCourseTeacherParts | src/main/java/sp/dataacquisitionprocedure/service/CsvImportService.java:147-150 | no whitespace gives the whole field and an empty teacher; otherwise the course is a whitespace-free prefix, the teacher a suffix not starting with whitespace, and only whitespace lies between them; a leading whitespace run gives an empty course |
| ImportRules.ExampleCourseTeacher | src/main/java/com/sp/dataacquisitionprocedure/service/CsvImportService.java:187-190 | `MATH Ms Chan` splits into `MATH` and `Ms Chan`; `MATH` into `MATH` and the empty string |
| ImportRules.RecordIdLayout | src/main/java/sp/dataacquisitionprocedure/service/CsvImportService.java:287-291 | the id is the class code, then the date, then six digits that read back as the draw |
| ImportRules.RecordIdSuffix | src/main/java/com/sp/dataacquisitionprocedure/service/CsvImportService.java:197-199 | with an eight-digit date the id is the class code followed by exactly fourteen digits |
| ImportRules.MapRow | src/main/java/sp/dataacquisitionprocedure/service/CsvImportService.java:131-166 | a row maps to a record exactly when it has at least six fields |
| ImportRules.MapRowColumns | src/main/java/sp/dataacquisitionprocedure/service/CsvImportService.java:144-160 | columns 1, 3, 4 and 5 are copied verbatim, course and teacher are the two parts `SplitCourseTeacher` gives for column 2 (so the course is a whitespace-free prefix of it, all of it when it has no whitespace), the class code is the file's, the update time is the clock's, and the id carries the code, the date and the draw |
| ImportRules.RowStepCounts | src/main/java/sp/dataacquisitionprocedure/service/CsvImportService.java:262-278 | each row moves exactly one counter; it is a success exactly when it maps and the store accepts it, and only then is its record appended |
| ImportRules.ImportRowsCounts | src/main/java/sp/dataacquisitionprocedure/service/CsvImportService.java:259-279 | over a file, errors grow by the bad rows, successes and stored records by the others, earlier records stay in place, and every new record carries the file's class code |
| ImportRules.NamelessFile | src/main/java/sp/dataacquisitionprocedure/service/CsvImportService.java:103-106 | a name without a class code stores nothing, costs one error, and its report line gives the naming message |
| ImportRules.FileStepTotals | src/main/java/sp/dataacquisitionprocedure/service/CsvImportService.java:214-223 | one pass of the file loop adds that file's successes and errors and keeps what was stored before |
| ImportRules.FilesTallyTotals | src/main/java/sp/dataacquisitionprocedure/service/CsvImportService.java:210-229 | after k files the counters are the sums of the per-file contributions, and a failed file does not stop the later ones |
| ImportRules.InterleaveLayout | src/main/java/sp/dataacquisitionprocedure/service/CsvImportService.java:225-228 | the report lines alternate with separators, so n files give n - 1 separators and none after the last file |
| ImportRules.FilesReportPieces | src/main/java/com/sp/dataacquisitionprocedure/service/CsvImportService.java:86-105 | the text the file loop appends is exactly that interleaving of file lines and separators |
| ImportRules.CsvNameIgnoresCase | src/main/java/com/sp/dataacquisitionprocedure/service/CsvImportService.java:76 | a name passes the filter exactly when it ends in `.csv` with any mix of letter cases |
| ImportRules.LowerAscii | src/main/java/sp/dataacquisitionprocedure/service/CsvImportService.java:202 | lower-casing keeps the length and maps each character on its own |
| ImportRules.CsvFilterKeeps | src/main/java/sp/dataacquisitionprocedure/service/CsvImportService.java:199-203 | the listing keeps exactly the entries with a CSV name |
| ImportRules.RunStopsEarly | src/main/java/sp/dataacquisitionprocedure/service/CsvImportService.java:65-79 | a directory that cannot be created leaves the table empty and reports the exception; with no CSV files the table stays empty and the report is the optional created line and "no files found" |
| ImportRules.RunTotals | src/main/java/sp/dataacquisitionprocedure/service/CsvImportService.java:60-94 | a run that reaches its files stores as many records as the files' well-formed rows and reports the found line, the file lines and the summed totals |
| ImportRules.OneFileRun | src/main/java/com/sp/dataacquisitionprocedure/service/CsvImportService.java:83-109 | with exactly one CSV file the report is the found line for 1, that file's line and the totals, with no separator |
| ImportRules.CleanFileTally | src/main/java/com/sp/dataacquisitionprocedure/service/CsvImportService.java:122-164 | a well-named file read to the end whose rows all map and are accepted stores every row under its class code, with no error |
| ImportRules.CleanFileRun | src/main/java/com/sp/dataacquisitionprocedure/service/CsvImportService.java:55-117 | a run over such a single file stores every row under the class code and reports one file found, its completion line and no errors |
| ImportRules.SingleFileScenario | src/main/java/com/sp/dataacquisitionprocedure/service/CsvImportService.java:55-117 | the same run for a lone file named `<code>_<rest>`, starting from the name alone |
| ImportRules.SplitCourseTeacher | src/main/java/sp/dataacquisitionprocedure/service/CsvImportService.java:147-150 | the two parts of `split("\\s+", 2)`, with "" for a missing second part; defined by its body, and `SplitCourseTeacherParts` states what the pair is |
| ImportRules.RecordId | src/main/java/sp/dataacquisitionprocedure/service/CsvImportService.java:287-291 | `generateRecordId`: class code, date and `%06d` of the draw; defined by its body, and `RecordIdLayout` and `RecordIdSuffix` state how the id splits back |
| ImportRules.RowStep | src/main/java/sp/dataacquisitionprocedure/service/CsvImportService.java:262-278 | one pass of the row loop; defined by its body, and `RowStepCounts` states that exactly one counter moves and when the record is stored |
| ImportRules.ImportRows | src/main/java/sp/dataacquisitionprocedure/service/CsvImportService.java:255-282 | the row loop over a whole file, row by row; defined by its body, and `ImportRowsCounts` states the counters and stored records it gives |
| ImportRules.FileImport | src/main/java/sp/dataacquisitionprocedure/service/CsvImportService.java:99-118 | `processSingleCsvFile`: a nameless file throws before any row, otherwise the row loop and the read exception; defined by its body, and `NamelessFile` and `FileStepTotals` state its effect |
| ImportRules.FileStep | src/main/java/sp/dataacquisitionprocedure/service/CsvImportService.java:214-223 | one pass of the file loop, a failing file adding one error; defined by its body, and `FileStepTotals` states what it adds |
| ImportRules.FilesTally | src/main/java/sp/dataacquisitionprocedure/service/CsvImportService.java:208-230 | the counters and table after the first k files; defined by its body, and `FilesTallyTotals` states them as per-file sums |
| ImportRules.FileLine | src/main/java/sp/dataacquisitionprocedure/service/CsvImportService.java:216-222 | the completion or failure line of one file; defined by its body, and `NamelessFile` and `OneFileRun` state it for the cases they cover |
| ImportRules.FilesReport | src/main/java/sp/dataacquisitionprocedure/service/CsvImportService.java:210-229 | the text the file loop appends; defined by its body, and `FilesReportPieces` with `InterleaveLayout` states that it alternates file lines and separators |
| ImportRules.IsCsvName | src/main/java/sp/dataacquisitionprocedure/service/CsvImportService.java:201-202 | the listing filter on the lower-cased name; defined by its body, and `CsvNameIgnoresCase` states that it accepts `.csv` in any letter case and nothing else |
| ImportRules.CsvFilter | src/main/java/sp/dataacquisitionprocedure/service/CsvImportService.java:199-203 | `getCsvFiles` over a listing, in listing order; defined by its body, and `CsvFilterKeeps` states which entries it keeps |
| ImportRules.Summary | src/main/java/sp/dataacquisitionprocedure/service/CsvImportService.java:235-239 | `appendProcessingSummary`: the completion line and both totals; defined by its body, and `RunTotals` states the totals it is given |
| ImportRules.Run | src/main/java/sp/dataacquisitionprocedure/service/CsvImportService.java:60-94 | `processCsvFiles` as a value: table and report of a whole run; defined by its body, and `RunStopsEarly`, `RunTotals`, `OneFileRun`, `CleanFileRun` and `SingleFileScenario` state its cases |
| SpImport.CsvImportService.ImportCsvFilesManually | src/main/java/sp/dataacquisitionprocedure/service/CsvImportService.java:46-48 | the manual trigger leaves the table and returns the report of a run |
| SpImport.CsvImportService.ImportCsvFilesScheduled | src/main/java/sp/dataacquisitionprocedure/service/CsvImportService.java:53-55 | the scheduled trigger does exactly the same as the manual one |
| SpImport.CsvImportService.ProcessCsvFiles | src/main/java/sp/dataacquisitionprocedure/service/CsvImportService.java:60-94 | the table afterwards and the report are those of `Run`, whatever the table held before |
| SpImport.CsvImportService.ClearExistingData | src/main/java/sp/dataacquisitionprocedure/service/CsvImportService.java:180-184 | the table is emptied |
| SpImport.CsvImportService.EnsureUploadDirectoryExists | src/main/java/sp/dataacquisitionprocedure/service/CsvImportService.java:189-194 | fails exactly when the directory is missing and cannot be created; otherwise adds the created line exactly when it was missing |
| SpImport.CsvImportService.ProcessCsvFileList | src/main/java/sp/dataacquisitionprocedure/service/CsvImportService.java:208-230 | the table and counters afterwards are the file loop's tally, and the appended text is the interleaved file lines |
| SpImport.CsvImportService.ProcessSingleCsvFile | src/main/java/sp/dataacquisitionprocedure/service/CsvImportService.java:99-118 | the table, counters and thrown message are those of importing the file |
| SpImport.CsvImportService.ProcessCsvRecords | src/main/java/sp/dataacquisitionprocedure/service/CsvImportService.java:255-282 | the table and counters afterwards are those of the row loop over all rows |
| SpImport.CsvImportService.ParseCsvRecord | src/main/java/sp/dataacquisitionprocedure/service/CsvImportService.java:131-166 | null exactly for a row of fewer than six fields; otherwise a fresh entity holding the mapped record |
| ComImport.CsvImportService.ImportCsvFilesManually | src/main/java/com/sp/dataacquisitionprocedure/service/CsvImportService.java:41-43 | the manual trigger leaves the table and returns the report of a run |
| ComImport.CsvImportService.ImportCsvFilesScheduled | src/main/java/com/sp/dataacquisitionprocedure/service/CsvImportService.java:48-50 | the scheduled trigger does exactly the same as the manual one |
| ComImport.CsvImportService.ProcessCsvFiles | src/main/java/com/sp/dataacquisitionprocedure/service/CsvImportService.java:55-117 | the inline run leaves the same table and report as `Run`, and so as the `sp` variant |
| ComImport.CsvImportService.ProcessSingleCsvFile | src/main/java/com/sp/dataacquisitionprocedure/service/CsvImportService.java:122-164 | the inline row loop leaves the table, counters and thrown message of importing the file |
| ComImport.CsvImportService.ParseCsvRecord | src/main/java/com/sp/dataacquisitionprocedure/service/CsvImportService.java:181-208 | the inline id construction gives the same record as the shared mapping, and null exactly for short rows |
| ComImport.CsvImportService.GetUploadPath | src/main/java/com/sp/dataacquisitionprocedure/service/CsvImportService.java:220-222 | returns the configured path |

Three behaviours of the code worth noting:

- The table is emptied before the directory is checked. A directory that
  cannot be created therefore leaves an empty table, not the previous contents.
- A file name starting with `_` has no class code, just like a name without `_`.
- A row refused by the store is counted as an error and the loop goes on.

## Left out

- Filesystem I/O is left out: checking and creating the directory, listing it,
  and opening and decoding the files. Their outcomes enter as `UploadDir` and
  `CsvFile` values. The only failure modelled for the listing step is the
  creation exception. The listing order is whatever the input sequence says.
- CSV parsing (Apache Commons CSV) is left out: quoting, dialects and header
  handling. Rows arrive split into fields with the header dropped. A parse
  exception part-way through a file is modelled as the rows read before it
  plus the exception's message.
- The persistence layer is left out: the JPA repository, the MyBatis mapper
  and transactions. Both `insert` and `save` are one abstract store whose
  refusal of a row is an input bit. What a duplicate id would do (an
  exception for `insert`, an overwrite for `save`) is not modelled.
- `LocalDateTime.now()` and `Random.nextInt` are inputs per row (`RowEnv`).
  The id's date is taken as the formatted string it is given.
- Logging, the `recordCount` variable that only feeds log messages, the
  scheduler class and the Spring bootstrap are left out.
- Configuration injection is left out. The upload path is a constructor
  argument; the `com` default `D:/uploadPath` is not modelled.
- The no-argument JPA constructor of `ClassLog` and the `null` fields it
  leaves are left out, because every string in the model is a value.
  `toString` therefore never prints `null`.
- Exception messages are plain strings; a `null` message is not modelled.
- A failing delete is not modelled. `deleteAll` (sp) and `deleteAllRecords`
  (com) are called before the `try`, so an exception there would leave the
  entry point with no report and the table unchanged; `DeleteAll` always
  succeeds here.
- `String.format("%d")`, `String.format("%06d")` and `StringBuilder.append(int)`
  are modelled as producing ASCII digits `0`-`9`. A default locale with other
  digits would change the id's last six characters and the report's counts.
- `AtomicInteger` counters are unbounded naturals. Their 32-bit wrap-around
  would need more than two billion rows in one run.
- ImportRules.LowerAscii: `toLowerCase` is modelled for ASCII letters only.
  Locale-dependent and non-ASCII case mappings are not modelled. Only a
  name's `.csv` suffix matters to the filter.
- Column length limits (`@Column(length = ...)`) are left out; the Java code
  does not check them.
