/** Student records and the extraction of one field's values from them (spreadsheet2.py, `get_subject_marks`). */
module Records {
  import opened Outcomes

  /** One row of the sheet: numeric cell values keyed by the column header. */
  type Record = map<string, real>

  /** Every record of `data` has the field. */
  predicate HasField(data: seq<Record>, field: string)
  {
    forall i :: 0 <= i < |data| ==> field in data[i]
  }

  /** The field's value of every record, in record order. */
  function Column(data: seq<Record>, field: string): seq<real>
    requires HasField(data, field)
  {
    seq(|data|, i requires 0 <= i < |data| => data[i][field])
  }

  /** The column, or the KeyError the lookup raises when some record lacks the field. */
  function ColumnOf(data: seq<Record>, field: string): Result<seq<real>>
  {
    if HasField(data, field) then Ok(Column(data, field)) else Err(MissingField(field))
  }

  /** Appends `student[subject]` of every student, in order; the lookup on a
      record without the field raises KeyError, which ends the extraction. */
  method GetSubjectMarks(data: seq<Record>, subject: string) returns (r: Result<seq<real>>)
    ensures r.Ok? <==> HasField(data, subject)
    ensures r.Ok? ==> |r.value| == |data|
    ensures r.Ok? ==> forall i :: 0 <= i < |data| ==> r.value[i] == data[i][subject]
    ensures r.Err? ==> r.error == MissingField(subject)
    ensures r == ColumnOf(data, subject)
  {
    var marks: seq<real> := [];
    for k := 0 to |data|
      invariant |marks| == k
      invariant forall i :: 0 <= i < k ==> subject in data[i] && marks[i] == data[i][subject]
    {
      if subject !in data[k] {
        return Err(MissingField(subject));
      }
      marks := marks + [data[k][subject]];
    }
    assert marks == Column(data, subject);
    return Ok(marks);
  }

  /** `get_num_students`: the length of the English column. */
  method GetNumStudents(data: seq<Record>) returns (r: Result<nat>)
    ensures r.Ok? <==> HasField(data, "English")
    ensures r.Ok? ==> r.value == |data|
    ensures r.Err? ==> r.error == MissingField("English")
  {
    var marks :- GetSubjectMarks(data, "English");
    return Ok(|marks|);
  }
}
