/**
 * The `sp` variant of the import service: the run is split into helper
 * methods, and rows go to the store through the mapper's `insert`.
 */
module SpImport {
  import opened Options
  import opened Entity
  import opened Store
  import opened ImportRules

  class CsvImportService {
    /** The mapper the service writes through. */
    const store: ClassLogStore
    /** The configured upload directory path. */
    const uploadPath: string

    constructor (store: ClassLogStore, uploadPath: string)
      ensures this.store == store && this.uploadPath == uploadPath
    {
      this.store := store;
      this.uploadPath := uploadPath;
    }

    /** The manual entry point. */
    method ImportCsvFilesManually(dir: UploadDir) returns (report: string)
      modifies store
      ensures store.records == Run(uploadPath, dir).stored
      ensures report == Run(uploadPath, dir).report
    {
      report := ProcessCsvFiles(false, dir);
    }

    /** The scheduled entry point: the flag it passes changes nothing. */
    method ImportCsvFilesScheduled(dir: UploadDir) returns (report: string)
      modifies store
      ensures store.records == Run(uploadPath, dir).stored
      ensures report == Run(uploadPath, dir).report
    {
      report := ProcessCsvFiles(true, dir);
    }

    /**
     * The whole run. What the store holds afterwards does not depend on what
     * it held before: it is emptied before the directory is even looked at.
     */
    method ProcessCsvFiles(isScheduled: bool, dir: UploadDir) returns (report: string)
      modifies store
      ensures store.records == Run(uploadPath, dir).stored
      ensures report == Run(uploadPath, dir).report
    {
      var result := "";
      var successCount, errorCount := 0, 0;
      ClearExistingData();
      var failure;
      result, failure := EnsureUploadDirectoryExists(dir, result);
      if failure.Some? {
        report := result + RunErrorText(failure.value);
        assert report == RunErrorText(failure.value) by {
          assert "" + RunErrorText(failure.value) == RunErrorText(failure.value);
        }
        RunStopsEarly(uploadPath, dir);
        return;
      }
      ghost var created := if dir.present then "" else CreatedLine(uploadPath);
      assert result == created by {
        assert "" + created == created;
      }
      var csvFiles := CsvFiles(dir.listing);
      if |csvFiles| == 0 {
        report := result + NoFilesLine;
        RunStopsEarly(uploadPath, dir);
        return;
      }
      result := result + FoundLine(|csvFiles|);
      result, successCount, errorCount := ProcessCsvFileList(csvFiles, result, successCount, errorCount);
      RunFiles(uploadPath, dir, result, Tally(store.records, successCount, errorCount));
      report := result + Summary(successCount, errorCount);
    }

    /** `clearExistingData`: the mapper's `deleteAll`. */
    method ClearExistingData()
      modifies store
      ensures store.records == []
    {
      store.DeleteAll();
    }

    /**
     * `ensureUploadDirectoryExists`: an absent directory is created and
     * noted in the report; the exception of a failed creation is returned.
     */
    method EnsureUploadDirectoryExists(dir: UploadDir, result0: string) returns (result: string, failure: Option<string>)
      ensures failure.Some? <==> DirectoryFails(dir)
      ensures failure.Some? ==> failure == dir.createError && result == result0
      ensures failure.None? ==> result == result0 + (if dir.present then "" else CreatedLine(uploadPath))
    {
      result, failure := result0, None;
      if !dir.present {
        if dir.createError.Some? {
          failure := dir.createError;
          return;
        }
        result := result + CreatedLine(uploadPath);
      } else {
        assert result0 + "" == result0;
      }
    }

    /**
     * `processCsvFileList`: every file in order; a failing file costs one
     * error and its line says why, and the loop goes on.
     */
    method ProcessCsvFileList(csvFiles: seq<CsvFile>, result0: string, success0: nat, errors0: nat)
      returns (result: string, successCount: nat, errorCount: nat)
      modifies store
      ensures Tally(store.records, successCount, errorCount)
              == FilesTally(Tally(old(store.records), success0, errors0), csvFiles, |csvFiles|)
      ensures result == result0 + FilesReport(FileLines(csvFiles), |csvFiles|)
    {
      result, successCount, errorCount := result0, success0, errors0;
      ghost var lines := FileLines(csvFiles);
      ghost var t0 := Tally(store.records, success0, errors0);
      ghost var t := t0;
      var i := 0;
      while i < |csvFiles|
        invariant 0 <= i <= |csvFiles|
        invariant t == FilesTally(t0, csvFiles, i)
        invariant Tally(store.records, successCount, errorCount) == t
        invariant result == result0 + FilesReport(lines, i)
      {
        var csvFile := csvFiles[i];
        var failure;
        successCount, errorCount, failure := ProcessSingleCsvFile(csvFile, successCount, errorCount);
        ghost var fr := FileResult(Tally(store.records, successCount, errorCount), failure);
        ghost var done := result;
        if failure.None? {
          result := result + DoneLine(csvFile.name);
        } else {
          errorCount := errorCount + 1;
          result := result + FailLine(csvFile.name, failure.value);
        }
        ghost var line := if failure.None? then DoneLine(csvFile.name) else FailLine(csvFile.name, failure.value);
        if i < |csvFiles| - 1 {
          result := result + Separator;
        }
        ghost var k := i;
        i := i + 1;
        t := fr.tally.(errors := errorCount);
        FileLoopStep(t0, csvFiles, k, i, fr, t, line);
        ReportStep(done, result0, lines, k, i, line);
      }
    }

    /**
     * `processSingleCsvFile`: a name without a class code throws before any
     * row is read; otherwise the rows are imported and the exception that
     * ended the reading, if any, is returned.
     */
    method ProcessSingleCsvFile(csvFile: CsvFile, success0: nat, errors0: nat)
      returns (successCount: nat, errorCount: nat, failure: Option<string>)
      modifies store
      ensures FileResult(Tally(store.records, successCount, errorCount), failure)
              == FileImport(Tally(old(store.records), success0, errors0), csvFile)
    {
      var studentClass := ExtractStudentClass(csvFile.name);
      if studentClass.None? {
        return success0, errors0, Some(NamingMessage(csvFile.name));
      }
      successCount, errorCount := ProcessCsvRecords(csvFile.rows, studentClass.value, success0, errors0);
      failure := csvFile.readError;
    }

    /**
     * `processCsvRecords`: each row is mapped and inserted; the success
     * counter moves only after the insert returns, the error counter when the
     * row does not map or the insert throws.
     */
    method ProcessCsvRecords(rows: seq<DataRow>, studentClass: string, success0: nat, errors0: nat)
      returns (successCount: nat, errorCount: nat)
      modifies store
      ensures Tally(store.records, successCount, errorCount)
              == ImportRows(Tally(old(store.records), success0, errors0), rows, studentClass)
    {
      successCount, errorCount := success0, errors0;
      ghost var t0 := Tally(store.records, success0, errors0);
      ghost var t := t0;
      var i := 0;
      while i < |rows|
        invariant 0 <= i <= |rows|
        invariant t == ImportRows(t0, rows[..i], studentClass)
        invariant Tally(store.records, successCount, errorCount) == t
      {
        var row := rows[i];
        var classLog := ParseCsvRecord(row.fields, studentClass, row.env);
        if classLog != null {
          var inserted := store.Insert(classLog, row.env.insertFails);
          if inserted {
            successCount := successCount + 1;
          } else {
            errorCount := errorCount + 1;
          }
        } else {
          errorCount := errorCount + 1;
        }
        ghost var k := i;
        i := i + 1;
        t := RowStep(t, row, studentClass);
        ImportRowsStep(t0, rows, studentClass, k, i);
      }
      assert rows[..|rows|] == rows;
    }

    /**
     * `parseCsvRecord`: a fresh entity from a row of at least six fields;
     * a shorter row makes one of the positional reads throw, which is caught
     * and gives null.
     */
    method ParseCsvRecord(fields: seq<string>, studentClass: string, env: RowEnv) returns (classLog: ClassLog?)
      ensures classLog == null <==> |fields| < 6
      ensures classLog != null ==> fresh(classLog) && classLog.Snapshot() == MapRow(fields, studentClass, env).value
    {
      if |fields| < 6 {
        return null;
      }
      var content := fields[1];
      var (course, teacher) := SplitCourseTeacher(fields[2]);
      var courseType := fields[3];
      var startDate := fields[4];
      var endDate := fields[5];
      var id := RecordId(studentClass, env.date, env.draw);
      classLog := new ClassLog(id, studentClass, teacher, course, courseType, content, startDate, endDate, env.now);
    }
  }
}
