/**
 * The `com` variant of the import service: the same run written inline in
 * two methods, with rows going to the store through the repository's `save`.
 * It is proved against the same definitions as the `sp` variant, so the two
 * variants leave the same store and return the same report.
 */
module ComImport {
  import opened Options
  import opened Decimal
  import opened Entity
  import opened Store
  import opened ImportRules

  class CsvImportService {
    /** The repository the service writes through. */
    const store: ClassLogStore
    /** The configured upload directory path. */
    const uploadPath: string

    constructor (store: ClassLogStore, uploadPath: string)
      ensures this.store == store && this.uploadPath == uploadPath
    {
      this.store := store;
      this.uploadPath := uploadPath;
    }

    /** The manual entry point. */
    method ImportCsvFilesManually(dir: UploadDir) returns (report: string)
      modifies store
      ensures store.records == Run(uploadPath, dir).stored
      ensures report == Run(uploadPath, dir).report
    {
      report := ProcessCsvFiles(false, dir);
    }

    /** The scheduled entry point: the flag it passes changes nothing. */
    method ImportCsvFilesScheduled(dir: UploadDir) returns (report: string)
      modifies store
      ensures store.records == Run(uploadPath, dir).stored
      ensures report == Run(uploadPath, dir).report
    {
      report := ProcessCsvFiles(true, dir);
    }

    /**
     * The whole run, with the directory check and the file loop inline: the
     * store is emptied, an absent directory is created, and every listed CSV
     * file is imported in order, a failing file costing one error.
     */
    method ProcessCsvFiles(isScheduled: bool, dir: UploadDir) returns (report: string)
      modifies store
      ensures store.records == Run(uploadPath, dir).stored
      ensures report == Run(uploadPath, dir).report
    {
      var result := "";
      var successCount, errorCount := 0, 0;
      store.DeleteAll();
      if !dir.present {
        if dir.createError.Some? {
          report := result + RunErrorText(dir.createError.value);
          assert report == RunErrorText(dir.createError.value) by {
            assert "" + RunErrorText(dir.createError.value) == RunErrorText(dir.createError.value);
          }
          RunStopsEarly(uploadPath, dir);
          return;
        }
        result := result + CreatedLine(uploadPath);
      }
      ghost var created := if dir.present then "" else CreatedLine(uploadPath);
      assert result == created by {
        assert "" + created == created;
      }
      var csvFiles := CsvFiles(dir.listing);
      if |csvFiles| == 0 {
        report := result + NoFilesLine;
        RunStopsEarly(uploadPath, dir);
        return;
      }
      result := result + FoundLine(|csvFiles|);
      ghost var result0 := result;
      ghost var lines := FileLines(csvFiles);
      ghost var t0 := Tally(store.records, 0, 0);
      ghost var t := t0;
      var i := 0;
      while i < |csvFiles|
        invariant 0 <= i <= |csvFiles|
        invariant t == FilesTally(t0, csvFiles, i)
        invariant Tally(store.records, successCount, errorCount) == t
        invariant result == result0 + FilesReport(lines, i)
      {
        var csvFile := csvFiles[i];
        var failure;
        successCount, errorCount, failure := ProcessSingleCsvFile(csvFile, successCount, errorCount);
        ghost var fr := FileResult(Tally(store.records, successCount, errorCount), failure);
        ghost var done := result;
        if failure.None? {
          result := result + DoneLine(csvFile.name);
        } else {
          errorCount := errorCount + 1;
          result := result + FailLine(csvFile.name, failure.value);
        }
        ghost var line := if failure.None? then DoneLine(csvFile.name) else FailLine(csvFile.name, failure.value);
        if i < |csvFiles| - 1 {
          result := result + Separator;
        }
        ghost var k := i;
        i := i + 1;
        t := fr.tally.(errors := errorCount);
        assert t == FilesTally(t0, csvFiles, i) && result == result0 + FilesReport(lines, i) by {
          FileLoopStep(t0, csvFiles, k, i, fr, t, line);
          ReportStep(done, result0, lines, k, i, line);
        }
      }
      report := result + Summary(successCount, errorCount);
      assert store.records == Run(uploadPath, dir).stored && report == Run(uploadPath, dir).report by {
        RunFiles(uploadPath, dir, result, Tally(store.records, successCount, errorCount));
      }
    }

    /**
     * `processSingleCsvFile`, with the row loop inline: a name without a
     * class code throws before any row is read; otherwise each row is mapped
     * and saved, the success counter moving only after `save` returns, and the
     * exception that ended the reading, if any, is returned.
     */
    method ProcessSingleCsvFile(csvFile: CsvFile, success0: nat, errors0: nat)
      returns (successCount: nat, errorCount: nat, failure: Option<string>)
      modifies store
      ensures FileResult(Tally(store.records, successCount, errorCount), failure)
              == FileImport(Tally(old(store.records), success0, errors0), csvFile)
    {
      var studentClass := ExtractStudentClass(csvFile.name);
      if studentClass.None? {
        return success0, errors0, Some(NamingMessage(csvFile.name));
      }
      successCount, errorCount := success0, errors0;
      var rows := csvFile.rows;
      ghost var t0 := Tally(store.records, success0, errors0);
      ghost var t := t0;
      var i := 0;
      while i < |rows|
        invariant 0 <= i <= |rows|
        invariant t == ImportRows(t0, rows[..i], studentClass.value)
        invariant Tally(store.records, successCount, errorCount) == t
      {
        var row := rows[i];
        var classLog := ParseCsvRecord(row.fields, studentClass.value, row.env);
        if classLog != null {
          var saved := store.Insert(classLog, row.env.insertFails);
          if saved {
            successCount := successCount + 1;
          } else {
            errorCount := errorCount + 1;
          }
        } else {
          errorCount := errorCount + 1;
        }
        ghost var k := i;
        i := i + 1;
        t := RowStep(t, row, studentClass.value);
        ImportRowsStep(t0, rows, studentClass.value, k, i);
      }
      assert rows[..|rows|] == rows;
      failure := csvFile.readError;
    }

    /**
     * `parseCsvRecord`, with the id built inline from the date, the
     * zero-padded draw and the class code: a fresh entity from a row of at
     * least six fields, and null for a shorter row.
     */
    method ParseCsvRecord(fields: seq<string>, studentClass: string, env: RowEnv) returns (classLog: ClassLog?)
      ensures classLog == null <==> |fields| < 6
      ensures classLog != null ==> fresh(classLog) && classLog.Snapshot() == MapRow(fields, studentClass, env).value
    {
      if |fields| < 6 {
        return null;
      }
      var content := fields[1];
      var (course, teacher) := SplitCourseTeacher(fields[2]);
      var courseType := fields[3];
      var startDateStr := fields[4];
      var endDateStr := fields[5];
      var dateStr := env.date;
      var randomNum := Pad6(env.draw);
      var id := studentClass + dateStr + randomNum;
      assert id == RecordId(studentClass, env.date, env.draw);
      classLog := new ClassLog(id, studentClass, teacher, course, courseType, content, startDateStr, endDateStr, env.now);
    }

    /** `getUploadPath`: the configured path. */
    method GetUploadPath() returns (path: string)
      ensures path == uploadPath
    {
      path := uploadPath;
    }
  }
}
