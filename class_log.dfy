/**
 * The `class_log` row: the immutable snapshot `Record` that the store keeps,
 * and the mutable entity object `ClassLog` that the import code builds.
 */
module Entity {

  /** A clock reading (`LocalDateTime`), kept as the text its `toString` yields. */
  type Timestamp = string

  /** The values of the nine persisted columns of one class-log row. */
  datatype Record = Record(
    id: string,
    studentClass: string,
    teacher: string,
    course: string,
    courseType: string,
    content: string,
    startDate: string,
    endDate: string,
    updateDate: Timestamp)

  /** `ClassLog.toString`: every field, in declaration order, between `ClassLog{` and `}`. */
  function RecordText(r: Record): (s: string)
    ensures |s| == 121 + |r.id| + |r.studentClass| + |r.teacher| + |r.course|
                      + |r.courseType| + |r.content| + |r.startDate| + |r.endDate| + |r.updateDate|
    ensures "ClassLog{id='" + r.id <= s
    ensures s[|s| - 1] == '}' && s[|s| - 1 - |r.updateDate|..|s| - 1] == r.updateDate
  {
    var head := "ClassLog{" + "id='" + r.id;
    var tail :=
      "'" +
      ", studentClass='" + r.studentClass + "'" +
      ", teacher='" + r.teacher + "'" +
      ", course='" + r.course + "'" +
      ", courseType='" + r.courseType + "'" +
      ", content='" + r.content + "'" +
      ", startDate='" + r.startDate + "'" +
      ", endDate='" + r.endDate + "'" +
      ", updateDate=" + r.updateDate +
      "}";
    assert (head + tail)[..|head|] == head;
    head + tail
  }

  class ClassLog {
    var id: string
    var studentClass: string
    var teacher: string
    var course: string
    var courseType: string
    var content: string
    var startDate: string
    var endDate: string
    var updateDate: Timestamp

    /** The current field values of this object. */
    function Snapshot(): Record
      reads this
    {
      Record(id, studentClass, teacher, course, courseType, content, startDate, endDate, updateDate)
    }

    /** The eight-argument constructor; `now` is the clock reading it takes for `updateDate`. */
    constructor (id: string, studentClass: string, teacher: string, course: string,
                 courseType: string, content: string, startDate: string, endDate: string,
                 now: Timestamp)
      ensures Snapshot() == Record(id, studentClass, teacher, course, courseType,
                                   content, startDate, endDate, now)
    {
      this.id := id;
      this.studentClass := studentClass;
      this.teacher := teacher;
      this.course := course;
      this.courseType := courseType;
      this.content := content;
      this.startDate := startDate;
      this.endDate := endDate;
      this.updateDate := now;
    }

    method GetId() returns (v: string)
      ensures v == Snapshot().id
    {
      v := id;
    }

    method SetId(v: string)
      modifies this
      ensures Snapshot() == old(Snapshot()).(id := v)
    {
      id := v;
    }

    method GetStudentClass() returns (v: string)
      ensures v == Snapshot().studentClass
    {
      v := studentClass;
    }

    method SetStudentClass(v: string)
      modifies this
      ensures Snapshot() == old(Snapshot()).(studentClass := v)
    {
      studentClass := v;
    }

    method GetContent() returns (v: string)
      ensures v == Snapshot().content
    {
      v := content;
    }

    method SetContent(v: string)
      modifies this
      ensures Snapshot() == old(Snapshot()).(content := v)
    {
      content := v;
    }

    method GetCourse() returns (v: string)
      ensures v == Snapshot().course
    {
      v := course;
    }

    method SetCourse(v: string)
      modifies this
      ensures Snapshot() == old(Snapshot()).(course := v)
    {
      course := v;
    }

    method GetTeacher() returns (v: string)
      ensures v == Snapshot().teacher
    {
      v := teacher;
    }

    method SetTeacher(v: string)
      modifies this
      ensures Snapshot() == old(Snapshot()).(teacher := v)
    {
      teacher := v;
    }

    method GetCourseType() returns (v: string)
      ensures v == Snapshot().courseType
    {
      v := courseType;
    }

    method SetCourseType(v: string)
      modifies this
      ensures Snapshot() == old(Snapshot()).(courseType := v)
    {
      courseType := v;
    }

    method GetStartDate() returns (v: string)
      ensures v == Snapshot().startDate
    {
      v := startDate;
    }

    method SetStartDate(v: string)
      modifies this
      ensures Snapshot() == old(Snapshot()).(startDate := v)
    {
      startDate := v;
    }

    method GetEndDate() returns (v: string)
      ensures v == Snapshot().endDate
    {
      v := endDate;
    }

    method SetEndDate(v: string)
      modifies this
      ensures Snapshot() == old(Snapshot()).(endDate := v)
    {
      endDate := v;
    }

    method GetUpdateDate() returns (v: Timestamp)
      ensures v == Snapshot().updateDate
    {
      v := updateDate;
    }

    method SetUpdateDate(v: Timestamp)
      modifies this
      ensures Snapshot() == old(Snapshot()).(updateDate := v)
    {
      updateDate := v;
    }

    /** `toString` renders the current field values. */
    method ToString() returns (s: string)
      ensures s == RecordText(Snapshot())
      ensures s[..13] == "ClassLog{id='" && s[|s| - 1] == '}'
    {
      s := RecordText(Snapshot());
    }
  }
}
