/**
 * The import pipeline as values: how a file name yields a class code, how a
 * CSV row yields a record, and what a whole run leaves in the store and in
 * its report. Both service variants are proved against these definitions.
 */
module ImportRules {
  import opened Options
  import opened Decimal
  import opened Entity

  // ---------------------------------------------------------------------------
  // Inputs supplied by the environment
  // ---------------------------------------------------------------------------

  /** A value of `Random.nextInt(1000000)`. */
  type Draw = n: int | 0 <= n < 1000000

  /**
   * What the environment supplies while one data row is handled: the clock
   * formatted as `yyyyMMdd`, the random draw, the clock reading the entity
   * constructor stores as `updateDate`, and whether the store refuses the insert.
   */
  datatype RowEnv = RowEnv(date: string, draw: Draw, now: Timestamp, insertFails: bool)

  /** One data row (the header already skipped), as the CSV parser splits it. */
  datatype DataRow = DataRow(fields: seq<string>, env: RowEnv)

  /**
   * A listed file: its name, the data rows read from it, and the message of
   * the exception that ended the reading, if any (a file that cannot be
   * opened has no rows and a message; a parse failure part-way has the rows
   * read before it).
   */
  datatype CsvFile = CsvFile(name: string, rows: seq<DataRow>, readError: Option<string>)

  /**
   * The upload directory: whether it exists, the message of the exception
   * creating it throws (if it is absent and cannot be created), and the
   * result of `listFiles` (None where Java returns null).
   */
  datatype UploadDir = UploadDir(present: bool, createError: Option<string>, listing: Option<seq<CsvFile>>)

  // ---------------------------------------------------------------------------
  // Class code from the file name
  // ---------------------------------------------------------------------------

  /** `String.indexOf(char)`: the first index of c in s, or -1. */
  function IndexOf(s: string, c: char): (k: int)
    ensures -1 <= k < |s|
    ensures k == -1 <==> c !in s
    ensures 0 <= k ==> s[k] == c && c !in s[..k]
  {
    if s == [] then -1
    else if s[0] == c then 0
    else
      var j := IndexOf(s[1..], c);
      if j == -1 then -1
      else
        assert s[..j + 1] == [s[0]] + s[1..][..j];
        j + 1
  }

  const ClassSeparator: char := '_'

  /**
   * `extractStudentClass`: the text before the first underscore, when that
   * underscore is not the first character; otherwise nothing (Java's null).
   */
  function ExtractStudentClass(fileName: string): (r: Option<string>)
    ensures r.Some? <==> ClassSeparator in fileName && fileName[0] != ClassSeparator
    ensures r.Some? ==> |r.value| > 0 && ClassSeparator !in r.value
                        && r.value + [ClassSeparator] <= fileName
  {
    var k := IndexOf(fileName, ClassSeparator);
    if k > 0 then
      assert fileName[..k + 1] == fileName[..k] + [ClassSeparator];
      Some(fileName[..k])
    else None
  }

  /** A name made of a non-empty code without underscores, an underscore and anything else yields that code. */
  lemma {:induction false} ClassOfPrefixedName(code: string, rest: string)
    requires |code| > 0 && ClassSeparator !in code
    ensures ExtractStudentClass(code + [ClassSeparator] + rest) == Some(code)
  {
    var name := code + [ClassSeparator] + rest;
    var k := IndexOf(name, ClassSeparator);
    assert name[|code|] == ClassSeparator;
    assert name[..|code|] == code;
  }

  /** The file name of the source's own example, `P1A_ClassLog-20260210-105215.csv`, gives `P1A`. */
  lemma ExampleFileNameClass()
    ensures ExtractStudentClass("P1A" + "_" + "ClassLog-20260210-105215.csv") == Some("P1A")
  {
    ClassOfPrefixedName("P1A", "ClassLog-20260210-105215.csv");
  }

  // ---------------------------------------------------------------------------
  // Course / teacher split: `split("\\s+", 2)`
  // ---------------------------------------------------------------------------

  /** Java's regular-expression `\s`: space, tab, newline, vertical tab, form feed, carriage return. */
  predicate IsJavaWhitespace(c: char) {
    c == ' ' || c == '\t' || c == '\n' || c == '\U{0B}' || c == '\U{0C}' || c == '\r'
  }

  predicate NoWhitespace(s: string) {
    forall i :: 0 <= i < |s| ==> !IsJavaWhitespace(s[i])
  }

  /** The end of the run of non-whitespace characters starting at k. */
  function WordEnd(s: string, k: nat): (e: nat)
    requires k <= |s|
    ensures k <= e <= |s|
    ensures forall i :: k <= i < e ==> !IsJavaWhitespace(s[i])
    ensures e < |s| ==> IsJavaWhitespace(s[e])
    decreases |s| - k
  {
    if k == |s| || IsJavaWhitespace(s[k]) then k else WordEnd(s, k + 1)
  }

  /** The end of the run of whitespace characters starting at k. */
  function SpaceEnd(s: string, k: nat): (e: nat)
    requires k <= |s|
    ensures k <= e <= |s|
    ensures forall i :: k <= i < e ==> IsJavaWhitespace(s[i])
    ensures e < |s| ==> !IsJavaWhitespace(s[e])
    decreases |s| - k
  {
    if k == |s| || !IsJavaWhitespace(s[k]) then k else SpaceEnd(s, k + 1)
  }

  /**
   * The two parts of `s.split("\\s+", 2)`, with "" for a missing second part:
   * the course is everything before the first whitespace run and the teacher
   * everything after that run, further whitespace included. A field that
   * starts with whitespace gives an empty course.
   */
  function SplitCourseTeacher(s: string): (string, string)
  {
    var e := WordEnd(s, 0);
    if e == |s| then
      (s, "")
    else
      var j := SpaceEnd(s, e + 1);
      (s[..e], s[j..])
  }

  /**
   * A field without whitespace is all course; otherwise the course is a
   * whitespace-free prefix, the teacher a suffix not starting with
   * whitespace, and only whitespace lies between them.
   */
  lemma SplitCourseTeacherParts(s: string)
    ensures var r := SplitCourseTeacher(s);
            (NoWhitespace(s) ==> r == (s, ""))
            && (!NoWhitespace(s) ==>
                  |r.0| + |r.1| < |s| && s[..|r.0|] == r.0 && s[|s| - |r.1|..] == r.1
                  && (forall i :: |r.0| <= i < |s| - |r.1| ==> IsJavaWhitespace(s[i])))
            && NoWhitespace(r.0)
            && (r.1 != "" ==> !IsJavaWhitespace(r.1[0]))
            && (s != "" && IsJavaWhitespace(s[0]) ==> r.0 == "")
  {
    var e := WordEnd(s, 0);
    if e < |s| {
      var j := SpaceEnd(s, e + 1);
      assert !NoWhitespace(s) by {
        assert IsJavaWhitespace(s[e]);
      }
      assert NoWhitespace(s[..e]) by {
        forall i | 0 <= i < e
          ensures !IsJavaWhitespace(s[..e][i])
        {
          assert s[..e][i] == s[i];
        }
      }
    }
  }

  lemma ExampleCourseTeacher()
    ensures SplitCourseTeacher("MATH Ms Chan") == ("MATH", "Ms Chan")
    ensures SplitCourseTeacher("MATH") == ("MATH", "")
  {
    var s := "MATH Ms Chan";
    assert WordEnd(s, 4) == 4;
    assert WordEnd(s, 3) == 4;
    assert WordEnd(s, 2) == 4;
    assert WordEnd(s, 1) == 4;
    assert WordEnd(s, 0) == 4;
    assert SpaceEnd(s, 5) == 5;
    assert s[..4] == "MATH" && s[5..] == "Ms Chan";
    assert NoWhitespace("MATH");
  }

  // ---------------------------------------------------------------------------
  // Record id and row mapping
  // ---------------------------------------------------------------------------

  /**
   * `generateRecordId`: the class code, then the date as formatted, then the
   * draw zero-padded to six digits; the last six characters read back as the draw.
   */
  function RecordId(studentClass: string, date: string, draw: Draw): string
  {
    studentClass + date + Pad6(draw)
  }

  /** The id splits back into the class code, the date and the draw. */
  lemma RecordIdLayout(studentClass: string, date: string, draw: Draw)
    ensures var id := RecordId(studentClass, date, draw);
            |id| == |studentClass| + |date| + 6
            && id[..|studentClass|] == studentClass
            && id[|studentClass|..|studentClass| + |date|] == date
            && AllDigits(id[|id| - 6..]) && DigitsValue(id[|id| - 6..]) == draw
  {
    var id := RecordId(studentClass, date, draw);
    assert id[|id| - 6..] == Pad6(draw);
    assert id[..|studentClass|] == studentClass;
    assert id[|studentClass|..|studentClass| + |date|] == date;
    Pad6RoundTrip(draw);
  }

  /** With an eight-digit date the id is the class code followed by fourteen digits. */
  lemma RecordIdSuffix(studentClass: string, date: string, draw: Draw)
    requires |date| == 8 && AllDigits(date)
    ensures var id := RecordId(studentClass, date, draw);
            |id| == |studentClass| + 14 && AllDigits(id[|studentClass|..])
  {
    var id := RecordId(studentClass, date, draw);
    var n := |studentClass|;
    RecordIdLayout(studentClass, date, draw);
    forall i | n <= i < |id| ensures IsDigit(id[i]) {
      if i < n + 8 {
        assert id[i] == id[n..n + 8][i - n];
      } else {
        assert id[i] == id[|id| - 6..][i - (|id| - 6)];
      }
    }
  }

  /**
   * `parseCsvRecord`: a row with at least six fields becomes a record whose
   * columns are copied by position (1 content, 2 course and teacher, 3 course
   * type, 4 start date, 5 end date); a shorter row fails (Java's null).
   */
  function MapRow(fields: seq<string>, studentClass: string, env: RowEnv): (r: Option<Record>)
    ensures r.Some? <==> |fields| >= 6
  {
    if |fields| < 6 then None
    else
      var (course, teacher) := SplitCourseTeacher(fields[2]);
      Some(Record(RecordId(studentClass, env.date, env.draw), studentClass, teacher, course,
                  fields[3], fields[1], fields[4], fields[5], env.now))
  }

  /**
   * A mapped row keeps columns 1, 3, 4 and 5 verbatim, takes its course and
   * teacher from the two sides of column 2's first whitespace run, and gets an
   * id made of the class code, the date and the six digits of the draw.
   */
  lemma MapRowColumns(fields: seq<string>, studentClass: string, env: RowEnv)
    requires |fields| >= 6
    ensures var rec := MapRow(fields, studentClass, env).value;
            rec.studentClass == studentClass && rec.content == fields[1]
            && rec.courseType == fields[3] && rec.startDate == fields[4] && rec.endDate == fields[5]
            && rec.updateDate == env.now
            && (rec.course, rec.teacher) == SplitCourseTeacher(fields[2])
            && NoWhitespace(rec.course) && (rec.course == fields[2] <==> NoWhitespace(fields[2]))
            && fields[2][..|rec.course|] == rec.course
            && rec.id[..|studentClass|] == studentClass
            && rec.id[|studentClass|..|studentClass| + |env.date|] == env.date
            && |rec.id| == |studentClass| + |env.date| + 6
            && DigitsValue(rec.id[|rec.id| - 6..]) == env.draw
  {
    var rec := MapRow(fields, studentClass, env).value;
    var split := SplitCourseTeacher(fields[2]);
    var id := RecordId(studentClass, env.date, env.draw);
    assert rec.course == split.0 && rec.id == id;
    SplitCourseTeacherParts(fields[2]);
    RecordIdLayout(studentClass, env.date, env.draw);
  }

  // ---------------------------------------------------------------------------
  // Per-row counting
  // ---------------------------------------------------------------------------

  /** The store's contents and the two counters, as a run carries them along. */
  datatype Tally = Tally(stored: seq<Record>, success: nat, errors: nat)

  /** A row that ends up counted as an error: too few fields, or the store refused it. */
  predicate BadRow(row: DataRow) {
    |row.fields| < 6 || row.env.insertFails
  }

  function BadRows(rows: seq<DataRow>): (n: nat)
    ensures n <= |rows|
  {
    if rows == [] then 0
    else BadRows(rows[..|rows| - 1]) + (if BadRow(rows[|rows| - 1]) then 1 else 0)
  }

  /**
   * One pass of the row loop: a mapped row is inserted and then counted as a
   * success; a row that does not map, or whose insert throws, is counted as an error.
   */
  function RowStep(t: Tally, row: DataRow, studentClass: string): Tally
  {
    match MapRow(row.fields, studentClass, row.env)
    case None => t.(errors := t.errors + 1)
    case Some(rec) =>
      if row.env.insertFails then t.(errors := t.errors + 1)
      else Tally(t.stored + [rec], t.success + 1, t.errors)
  }

  /**
   * Every row moves exactly one counter; it is a success exactly when it is
   * well-formed and the store accepts it, and only then is its record stored.
   */
  lemma RowStepCounts(t: Tally, row: DataRow, studentClass: string)
    ensures var r := RowStep(t, row, studentClass);
            r.success + r.errors == t.success + t.errors + 1
            && (r.success == t.success + 1 <==> !BadRow(row))
            && (!BadRow(row) ==> r.stored == t.stored + [MapRow(row.fields, studentClass, row.env).value])
            && (BadRow(row) ==> r.stored == t.stored)
  {
  }

  /** The row loop over a whole file, row by row in file order. */
  function ImportRows(t: Tally, rows: seq<DataRow>, studentClass: string): Tally
  {
    if rows == [] then t
    else RowStep(ImportRows(t, rows[..|rows| - 1], studentClass), rows[|rows| - 1], studentClass)
  }

  /** One more pass of the row loop over a prefix of the rows. */
  lemma ImportRowsStep(t: Tally, rows: seq<DataRow>, studentClass: string, k: nat, next: nat)
    requires k < |rows| && next == k + 1
    ensures ImportRows(t, rows[..next], studentClass)
            == RowStep(ImportRows(t, rows[..k], studentClass), rows[k], studentClass)
  {
    assert rows[..next][..k] == rows[..k];
  }

  /**
   * The row loop over a whole file: every row bumps exactly one counter, the
   * successes are exactly the rows that were stored, and each of them
   * carries the file's class code.
   */
  lemma {:induction false} ImportRowsCounts(t: Tally, rows: seq<DataRow>, studentClass: string)
    ensures var r := ImportRows(t, rows, studentClass);
            r.errors == t.errors + BadRows(rows)
            && r.success == t.success + |rows| - BadRows(rows)
            && |r.stored| == |t.stored| + |rows| - BadRows(rows)
            && t.stored <= r.stored
            && forall i :: |t.stored| <= i < |r.stored| ==> r.stored[i].studentClass == studentClass
  {
    if rows != [] {
      ImportRowsCounts(t, rows[..|rows| - 1], studentClass);
    }
  }

  // ---------------------------------------------------------------------------
  // Per-file outcome
  // ---------------------------------------------------------------------------

  function NamingMessage(fileName: string): string {
    "無法從文件名提取班級信息: " + fileName
  }

  /** What `processSingleCsvFile` leaves: the tally, and the message of the exception it throws, if any. */
  datatype FileResult = FileResult(tally: Tally, failure: Option<string>)

  /**
   * `processSingleCsvFile`: a file whose name has no class code throws before
   * any row is read; otherwise its rows are imported until the reading ends,
   * normally or with an exception.
   */
  function FileImport(t: Tally, f: CsvFile): FileResult
  {
    match ExtractStudentClass(f.name)
    case None => FileResult(t, Some(NamingMessage(f.name)))
    case Some(studentClass) => FileResult(ImportRows(t, f.rows, studentClass), f.readError)
  }

  /**
   * A file whose name has no class code is refused before any row is read:
   * it stores nothing, costs one error, and its line gives the naming message.
   */
  lemma NamelessFile(t: Tally, f: CsvFile)
    requires ExtractStudentClass(f.name).None?
    ensures FileStep(t, f) == t.(errors := t.errors + 1)
    ensures FileLine(f) == FailLine(f.name, NamingMessage(f.name))
  {
  }

  predicate FileFails(f: CsvFile) {
    ExtractStudentClass(f.name).None? || f.readError.Some?
  }

  function FailureMessage(f: CsvFile): string
    requires FileFails(f)
  {
    if ExtractStudentClass(f.name).None? then NamingMessage(f.name) else f.readError.value
  }

  const Separator: string := "--- 準備處理下一個文件 ---\n"

  function DoneLine(fileName: string): string {
    "✓ 處理文件完成: " + fileName + "\n"
  }

  function FailLine(fileName: string, message: string): string {
    "✗ 處理文件失敗: " + fileName + " - 錯誤: " + message + "\n"
  }

  /** The report line for one file. */
  function FileLine(f: CsvFile): string {
    if FileFails(f) then FailLine(f.name, FailureMessage(f)) else DoneLine(f.name)
  }

  /** A file as the file loop handles it: a failing file adds one error and keeps what it stored. */
  function FileStep(t: Tally, f: CsvFile): Tally
  {
    var fr := FileImport(t, f);
    if fr.failure.Some? then fr.tally.(errors := fr.tally.errors + 1) else fr.tally
  }

  /** Records a file contributes: its well-formed rows, if its name has a class code. */
  function FileSuccesses(f: CsvFile): nat {
    if ExtractStudentClass(f.name).Some? then |f.rows| - BadRows(f.rows) else 0
  }

  /** Errors a file contributes: its bad rows, plus one if the file fails. */
  function FileErrors(f: CsvFile): nat {
    (if ExtractStudentClass(f.name).Some? then BadRows(f.rows) else 0) + (if FileFails(f) then 1 else 0)
  }

  function TotalSuccesses(files: seq<CsvFile>): nat {
    if files == [] then 0 else TotalSuccesses(files[..|files| - 1]) + FileSuccesses(files[|files| - 1])
  }

  function TotalErrors(files: seq<CsvFile>): nat {
    if files == [] then 0 else TotalErrors(files[..|files| - 1]) + FileErrors(files[|files| - 1])
  }

  // ---------------------------------------------------------------------------
  // The file loop
  // ---------------------------------------------------------------------------

  /** The tally after the first k passes of the file loop over `files`. */
  function FilesTally(t: Tally, files: seq<CsvFile>, k: nat): Tally
    requires k <= |files|
  {
    if k == 0 then t else FileStep(FilesTally(t, files, k - 1), files[k - 1])
  }

  /** The report line of every file of the list, in order. */
  function FileLines(files: seq<CsvFile>): (lines: seq<string>)
    ensures |lines| == |files|
  {
    if files == [] then [] else FileLines(files[..|files| - 1]) + [FileLine(files[|files| - 1])]
  }

  lemma {:induction false} FileLinesAt(files: seq<CsvFile>, j: nat)
    requires j < |files|
    ensures FileLines(files)[j] == FileLine(files[j])
  {
    if j < |files| - 1 {
      FileLinesAt(files[..|files| - 1], j);
    }
  }

  /** One pass of the file loop, from what `processSingleCsvFile` left. */
  lemma FileStepFrom(t: Tally, f: CsvFile, fr: FileResult)
    requires fr == FileImport(t, f)
    ensures FileStep(t, f) == if fr.failure.Some? then fr.tally.(errors := fr.tally.errors + 1) else fr.tally
  {
  }

  /** The report line of a file, from what `processSingleCsvFile` left. */
  lemma FileLineFrom(t: Tally, f: CsvFile, fr: FileResult)
    requires fr == FileImport(t, f)
    ensures FileLine(f) == if fr.failure.Some? then FailLine(f.name, fr.failure.value) else DoneLine(f.name)
  {
  }

  /**
   * One pass of the file loop: from the tally before the file and what
   * `processSingleCsvFile` left, the counters and the report line the loop
   * produces are the next step of `FilesTally` and the file's `FileLines` entry.
   */
  lemma FileLoopStep(t0: Tally, files: seq<CsvFile>, k: nat, next: nat, fr: FileResult, after: Tally, line: string)
    requires k < |files| && next == k + 1
    requires fr == FileImport(FilesTally(t0, files, k), files[k])
    requires after == if fr.failure.Some? then fr.tally.(errors := fr.tally.errors + 1) else fr.tally
    requires line == if fr.failure.Some? then FailLine(files[k].name, fr.failure.value) else DoneLine(files[k].name)
    ensures after == FilesTally(t0, files, next)
    ensures line == FileLines(files)[k]
  {
    FileStepFrom(FilesTally(t0, files, k), files[k], fr);
    FileLineFrom(FilesTally(t0, files, k), files[k], fr);
    FileLinesAt(files, k);
  }

  /**
   * The report pieces the first k passes of the file loop append: each line,
   * followed by the separator unless it is the last line of the list.
   */
  function Interleave(lines: seq<string>, k: nat): seq<string>
    requires k <= |lines|
  {
    if k == 0 then []
    else Interleave(lines, k - 1) + [lines[k - 1]]
         + (if k - 1 < |lines| - 1 then [Separator] else [])
  }

  /** The report pieces alternate lines and separators: n lines give n - 1 separators. */
  lemma {:induction false} InterleaveLayout(lines: seq<string>, k: nat)
    requires k <= |lines|
    ensures var p := Interleave(lines, k);
            |p| == (if k == 0 then 0 else if k < |lines| then 2 * k else 2 * k - 1)
            && forall j :: 0 <= j < k ==>
                 p[2 * j] == lines[j] && (2 * j + 1 < |p| ==> p[2 * j + 1] == Separator)
  {
    if k > 0 {
      InterleaveLayout(lines, k - 1);
      var prev := Interleave(lines, k - 1);
      var p := Interleave(lines, k);
      forall j | 0 <= j < k
        ensures p[2 * j] == lines[j] && (2 * j + 1 < |p| ==> p[2 * j + 1] == Separator)
      {
        if j < k - 1 {
          assert p[2 * j] == prev[2 * j] && p[2 * j + 1] == prev[2 * j + 1];
        }
      }
    }
  }

  /** One file adds its own successes and errors, and keeps what was stored before it. */
  lemma FileStepTotals(t: Tally, f: CsvFile)
    ensures var r := FileStep(t, f);
            r.success == t.success + FileSuccesses(f)
            && r.errors == t.errors + FileErrors(f)
            && |r.stored| == |t.stored| + FileSuccesses(f)
            && t.stored <= r.stored
  {
    match ExtractStudentClass(f.name)
    case None =>
    case Some(studentClass) =>
      ImportRowsCounts(t, f.rows, studentClass);
  }

  /**
   * After k files the counters hold exactly the per-file contributions:
   * a failing file adds one error and does not stop later files, and what
   * each file stored stays in the store.
   */
  lemma {:induction false} FilesTallyTotals(t: Tally, files: seq<CsvFile>, k: nat)
    requires k <= |files|
    ensures var r := FilesTally(t, files, k);
            r.success == t.success + TotalSuccesses(files[..k])
            && r.errors == t.errors + TotalErrors(files[..k])
            && |r.stored| == |t.stored| + TotalSuccesses(files[..k])
            && t.stored <= r.stored
  {
    if k > 0 {
      FilesTallyTotals(t, files, k - 1);
      var f := files[k - 1];
      assert files[..k][..k - 1] == files[..k - 1] && files[..k][k - 1] == f;
      FileStepTotals(FilesTally(t, files, k - 1), f);
    }
  }


  // ---------------------------------------------------------------------------
  // Listing and the whole run
  // ---------------------------------------------------------------------------

  function LowerChar(c: char): char {
    if 'A' <= c <= 'Z' then (c as int + 32) as char else c
  }

  /** `toLowerCase` restricted to ASCII letters. */
  function LowerAscii(s: string): (r: string)
    ensures |r| == |s| && forall i :: 0 <= i < |s| ==> r[i] == LowerChar(s[i])
  {
    seq(|s|, i requires 0 <= i < |s| => LowerChar(s[i]))
  }

  const CsvExtension: string := ".csv"

  /** The listing filter: the lower-cased name ends with `.csv`. */
  predicate IsCsvName(name: string) {
    |name| >= 4 && LowerAscii(name)[|name| - 4..] == CsvExtension
  }

  /** The filter ignores the case of the extension and of nothing else. */
  lemma CsvNameIgnoresCase(name: string)
    ensures IsCsvName(name) <==>
              |name| >= 4 && name[|name| - 4] == '.'
              && name[|name| - 3] in "cC" && name[|name| - 2] in "sS" && name[|name| - 1] in "vV"
  {
    if |name| >= 4 {
      var n := |name|;
      var tail := LowerAscii(name)[n - 4..];
      assert tail == [LowerChar(name[n - 4]), LowerChar(name[n - 3]), LowerChar(name[n - 2]), LowerChar(name[n - 1])];
    }
  }

  /** `getCsvFiles` over a listing: the entries with a CSV name, in listing order. */
  function CsvFilter(entries: seq<CsvFile>): seq<CsvFile>
  {
    if entries == [] then []
    else
      var rest := CsvFilter(entries[..|entries| - 1]);
      var last := entries[|entries| - 1];
      if IsCsvName(last.name) then rest + [last] else rest
  }

  /** The filter keeps exactly the entries with a CSV name, and no more of them than were listed. */
  lemma {:induction false} CsvFilterKeeps(entries: seq<CsvFile>)
    ensures |CsvFilter(entries)| <= |entries|
    ensures forall f :: f in CsvFilter(entries) <==> f in entries && IsCsvName(f.name)
  {
    if entries != [] {
      var init := entries[..|entries| - 1];
      CsvFilterKeeps(init);
      assert entries == init + [entries[|entries| - 1]];
    }
  }

  /** `listFiles` returning null counts as no files. */
  function CsvFiles(listing: Option<seq<CsvFile>>): seq<CsvFile> {
    match listing
    case None => []
    case Some(entries) => CsvFilter(entries)
  }

  function Concat(pieces: seq<string>): string {
    if pieces == [] then "" else Concat(pieces[..|pieces| - 1]) + pieces[|pieces| - 1]
  }

  lemma {:induction false} ConcatAppend(a: seq<string>, b: seq<string>)
    ensures Concat(a + b) == Concat(a) + Concat(b)
  {
    if b != [] {
      assert (a + b)[..|a + b| - 1] == a + b[..|b| - 1];
      ConcatAppend(a, b[..|b| - 1]);
    } else {
      assert a + b == a;
    }
  }

  lemma InterleaveConcatStep(lines: seq<string>, k: nat)
    requires k < |lines|
    ensures Concat(Interleave(lines, k + 1))
            == Concat(Interleave(lines, k)) + lines[k] + (if k < |lines| - 1 then Separator else "")
  {
    var prev := Interleave(lines, k);
    ConcatAppend(prev, [lines[k]]);
    assert Concat([lines[k]]) == lines[k] by {
      assert [lines[k]][..0] == [];
      assert "" + lines[k] == lines[k];
    }
    if k < |lines| - 1 {
      ConcatAppend(prev + [lines[k]], [Separator]);
      assert Concat([Separator]) == Separator by {
        assert [Separator][..0] == [];
        assert "" + Separator == Separator;
      }
    } else {
      assert prev + [lines[k]] + [] == prev + [lines[k]];
      assert Concat(prev) + lines[k] + "" == Concat(prev) + lines[k];
    }
  }

  /**
   * The text the file loop appends to the report after k files: each file's
   * line, followed by the separator unless it is the last file of the list.
   */
  function FilesReport(lines: seq<string>, k: nat): string
    requires k <= |lines|
  {
    if k == 0 then ""
    else FilesReport(lines, k - 1) + lines[k - 1] + (if k - 1 < |lines| - 1 then Separator else "")
  }

  /** The appended text is the concatenation of the interleaved pieces `InterleaveLayout` describes. */
  lemma {:induction false} FilesReportPieces(lines: seq<string>, k: nat)
    requires k <= |lines|
    ensures FilesReport(lines, k) == Concat(Interleave(lines, k))
  {
    if k > 0 {
      FilesReportPieces(lines, k - 1);
      InterleaveConcatStep(lines, k - 1);
    }
  }

  /**
   * The report after one more pass of the file loop: the text so far, the
   * file's line, then a separator unless it was the last file.
   */
  lemma ReportStep(done: string, result0: string, lines: seq<string>, k: nat, next: nat, line: string)
    requires k < |lines| && next == k + 1 && line == lines[k]
    requires done == result0 + FilesReport(lines, k)
    ensures k < |lines| - 1 ==> done + line + Separator == result0 + FilesReport(lines, next)
    ensures k == |lines| - 1 ==> done + line == result0 + FilesReport(lines, next)
  {
    var prefix := FilesReport(lines, k);
    if k < |lines| - 1 {
      assert result0 + prefix + line + Separator == result0 + (prefix + line + Separator);
    } else {
      assert prefix + line + "" == prefix + line;
      assert result0 + prefix + line == result0 + (prefix + line);
    }
  }

  function CreatedLine(uploadPath: string): string {
    "創建目錄: " + uploadPath + "\n"
  }

  const NoFilesLine: string := "沒有找到CSV文件\n"

  function FoundLine(n: nat): string {
    "找到 " + DecimalString(n) + " 個CSV文件\n"
  }

  function RunErrorText(message: string): string {
    "處理過程中發生錯誤: " + message
  }

  /** `appendProcessingSummary`. */
  function Summary(success: nat, errors: nat): string {
    "\n處理完成!\n" + "成功處理: " + DecimalString(success) + " 條記錄\n"
    + "處理失敗: " + DecimalString(errors) + " 條記錄\n"
  }

  /** What a run leaves in the store, and the report it returns. */
  datatype RunResult = RunResult(stored: seq<Record>, report: string)

  predicate DirectoryFails(dir: UploadDir) {
    !dir.present && dir.createError.Some?
  }

  /**
   * `processCsvFiles`: the store is emptied first, whatever the directory
   * holds; then the directory is created if needed, the CSV files are listed
   * and each is imported in listing order.
   */
  function Run(uploadPath: string, dir: UploadDir): RunResult
  {
    if DirectoryFails(dir) then RunResult([], RunErrorText(dir.createError.value))
    else
      var pre := if dir.present then "" else CreatedLine(uploadPath);
      var files := CsvFiles(dir.listing);
      if files == [] then RunResult([], pre + NoFilesLine)
      else
        var t := FilesTally(Tally([], 0, 0), files, |files|);
        RunResult(t.stored, pre + FoundLine(|files|) + FilesReport(FileLines(files), |files|) + Summary(t.success, t.errors))
  }

  /**
   * A run that stops early: a directory that cannot be created leaves the
   * store empty and reports only the exception; a directory without CSV files
   * leaves it empty and reports that none were found.
   */
  lemma RunStopsEarly(uploadPath: string, dir: UploadDir)
    ensures DirectoryFails(dir) ==> Run(uploadPath, dir) == RunResult([], RunErrorText(dir.createError.value))
    ensures !DirectoryFails(dir) && CsvFiles(dir.listing) == [] ==>
              Run(uploadPath, dir) == RunResult([], (if dir.present then "" else CreatedLine(uploadPath)) + NoFilesLine)
  {
  }

  /** A run that reaches its files: what the file loop stored, and its text followed by the summary. */
  lemma RunFiles(uploadPath: string, dir: UploadDir, result: string, t: Tally)
    requires !DirectoryFails(dir) && CsvFiles(dir.listing) != []
    requires result == (if dir.present then "" else CreatedLine(uploadPath)) + FoundLine(|CsvFiles(dir.listing)|)
                       + FilesReport(FileLines(CsvFiles(dir.listing)), |CsvFiles(dir.listing)|)
    requires t == FilesTally(Tally([], 0, 0), CsvFiles(dir.listing), |CsvFiles(dir.listing)|)
    ensures Run(uploadPath, dir) == RunResult(t.stored, result + Summary(t.success, t.errors))
  {
  }

  /**
   * A run that reaches its files stores exactly the well-formed rows of the
   * well-named files, and its summary reports those totals.
   */
  lemma RunTotals(uploadPath: string, dir: UploadDir)
    requires !DirectoryFails(dir) && CsvFiles(dir.listing) != []
    ensures var files := CsvFiles(dir.listing);
            var r := Run(uploadPath, dir);
            |r.stored| == TotalSuccesses(files)
            && r.report == (if dir.present then "" else CreatedLine(uploadPath)) + FoundLine(|files|)
                           + FilesReport(FileLines(files), |files|)
                           + Summary(TotalSuccesses(files), TotalErrors(files))
  {
    var files := CsvFiles(dir.listing);
    FilesTallyTotals(Tally([], 0, 0), files, |files|);
    assert files[..|files|] == files;
  }

  /** A listing holding one entry with a CSV name lists exactly that file. */
  lemma SingleCsvListing(f: CsvFile)
    requires IsCsvName(f.name)
    ensures CsvFiles(Some([f])) == [f]
  {
    assert [f][..0] == [];
    assert CsvFilter([f][..0]) == [];
  }

  /** A present directory whose only CSV file is f: the run is that file's import and line. */
  lemma OneFileRun(uploadPath: string, dir: UploadDir, f: CsvFile)
    requires dir.present && CsvFiles(dir.listing) == [f]
    ensures var t := FileStep(Tally([], 0, 0), f);
            Run(uploadPath, dir) == RunResult(t.stored, FoundLine(1) + FileLine(f) + Summary(t.success, t.errors))
  {
    var files := CsvFiles(dir.listing);
    var t := FileStep(Tally([], 0, 0), f);
    assert |files| == 1;
    assert FilesTally(Tally([], 0, 0), files, |files|) == t by {
      assert FilesTally(Tally([], 0, 0), files, 0) == Tally([], 0, 0);
    }
    var found := FoundLine(|files|);
    assert found == FoundLine(1);
    var text := FilesReport(FileLines(files), |files|);
    assert text == FileLine(f) by {
      FileLinesAt(files, 0);
      assert FilesReport(FileLines(files), 0) == "";
      assert text == "" + FileLine(f) + "";
      assert "" + FileLine(f) + "" == FileLine(f);
    }
    assert "" + found + text == FoundLine(1) + FileLine(f) by {
      assert "" + found == found;
    }
    RunFiles(uploadPath, dir, FoundLine(1) + FileLine(f), t);
  }

  /**
   * A file with a class code that reads to the end and whose rows are all
   * well-formed and accepted: every row becomes a record of that class code,
   * none is an error, and the file's line reports completion.
   */
  lemma CleanFileTally(f: CsvFile, code: string)
    requires ExtractStudentClass(f.name) == Some(code) && f.readError.None?
    requires forall i :: 0 <= i < |f.rows| ==> !BadRow(f.rows[i])
    ensures var t := FileStep(Tally([], 0, 0), f);
            |t.stored| == |f.rows| && t.success == |f.rows| && t.errors == 0
            && (forall i :: 0 <= i < |t.stored| ==> t.stored[i].studentClass == code)
            && FileLine(f) == DoneLine(f.name)
  {
    var t := ImportRows(Tally([], 0, 0), f.rows, code);
    assert FileImport(Tally([], 0, 0), f) == FileResult(t, None);
    NoBadRows(f.rows);
    ImportRowsCounts(Tally([], 0, 0), f.rows, code);
  }

  /**
   * A present directory whose only CSV file is such a clean file: its rows
   * are stored under the class code, and the report names one file, its
   * completion and no errors.
   */
  lemma CleanFileRun(uploadPath: string, dir: UploadDir, f: CsvFile, code: string)
    requires dir.present && CsvFiles(dir.listing) == [f]
    requires ExtractStudentClass(f.name) == Some(code) && f.readError.None?
    requires forall i :: 0 <= i < |f.rows| ==> !BadRow(f.rows[i])
    ensures var r := Run(uploadPath, dir);
            |r.stored| == |f.rows| && (forall i :: 0 <= i < |r.stored| ==> r.stored[i].studentClass == code)
            && r.report == FoundLine(1) + DoneLine(f.name) + Summary(|f.rows|, 0)
  {
    CleanFileTally(f, code);
    OneFileRun(uploadPath, dir, f);
  }

  /** The same for a lone file named `<code>_<rest>` with a code free of underscores. */
  lemma SingleFileScenario(uploadPath: string, code: string, rest: string, rows: seq<DataRow>)
    requires |code| > 0 && ClassSeparator !in code && IsCsvName(code + [ClassSeparator] + rest)
    requires forall i :: 0 <= i < |rows| ==> !BadRow(rows[i])
    ensures var name := code + [ClassSeparator] + rest;
            var r := Run(uploadPath, UploadDir(true, None, Some([CsvFile(name, rows, None)])));
            |r.stored| == |rows| && (forall i :: 0 <= i < |r.stored| ==> r.stored[i].studentClass == code)
            && r.report == FoundLine(1) + DoneLine(name) + Summary(|rows|, 0)
  {
    var f := CsvFile(code + [ClassSeparator] + rest, rows, None);
    ClassOfPrefixedName(code, rest);
    SingleCsvListing(f);
    CleanFileRun(uploadPath, UploadDir(true, None, Some([f])), f, code);
  }

  lemma {:induction false} NoBadRows(rows: seq<DataRow>)
    requires forall i :: 0 <= i < |rows| ==> !BadRow(rows[i])
    ensures BadRows(rows) == 0
  {
    if rows != [] {
      NoBadRows(rows[..|rows| - 1]);
    }
  }
}
