/** The uniform-issue form: `fardaAlunoSchema`, and edit-mode defaults that cut the stored timestamp to its date. */
module FardaAlunoForm {
  import opened Common
  import opened JsStrings
  import opened Zod

  const AlunoMessage: string := "Selecione um aluno"
  const FardaMessage: string := "Selecione um fardamento"
  const DataEntregaMessage: string := "Data de entrega é obrigatória"

  /** `fardaAlunoSchema`. */
  const FardaAlunoSchema: Schema := [
    Entry("id_aluno", NumberMin(1.0, AlunoMessage)),
    Entry("id_farda", NumberMin(1.0, FardaMessage)),
    Entry("data_entrega", StringMin(1, DataEntregaMessage))
  ]

  const Fields: set<string> := {"id_aluno", "id_farda", "data_entrega"}

  /** The error raised while rendering when `data_entrega` has no `split` method (it is missing or not text). */
  const SplitTypeError: string := "TypeError"

  function Validate(v: Values): Parsed {
    Parse(FardaAlunoSchema, v, NoEmail)
  }

  lemma SchemaShape()
    ensures UniqueNames(FardaAlunoSchema) && Names(FardaAlunoSchema) == Fields
  {
    assert FardaAlunoSchema[0].name in Names(FardaAlunoSchema) && FardaAlunoSchema[1].name in Names(FardaAlunoSchema);
    assert FardaAlunoSchema[2].name in Names(FardaAlunoSchema);
  }

  /** Both selects need numbers of at least 1; the delivery date must be non-empty text. */
  lemma FieldRules(v: Values)
    ensures ErrorFor(Validate(v), "id_aluno").None? <==> NumberAtLeast(v, "id_aluno", 1.0)
    ensures ErrorFor(Validate(v), "id_farda").None? <==> NumberAtLeast(v, "id_farda", 1.0)
    ensures ErrorFor(Validate(v), "data_entrega").None? <==> IsText(v, "data_entrega") && v["data_entrega"].s != ""
    ensures IsNumber(v, "id_aluno") && v["id_aluno"].x < 1.0 ==> ErrorFor(Validate(v), "id_aluno") == Some(AlunoMessage)
    ensures IsNumber(v, "id_farda") && v["id_farda"].x < 1.0 ==> ErrorFor(Validate(v), "id_farda") == Some(FardaMessage)
    ensures IsText(v, "data_entrega") && v["data_entrega"].s == "" ==>
      ErrorFor(Validate(v), "data_entrega") == Some(DataEntregaMessage)
  {
    SchemaShape();
    NumberMinField(FardaAlunoSchema, v, NoEmail, 0);
    NumberMinField(FardaAlunoSchema, v, NoEmail, 1);
    StringMinField(FardaAlunoSchema, v, NoEmail, 2);
  }

  /** A candidate is valid exactly when all three field rules hold. */
  lemma ValidIff(v: Values)
    ensures Validate(v).Valid? <==>
      NumberAtLeast(v, "id_aluno", 1.0) && NumberAtLeast(v, "id_farda", 1.0) && IsText(v, "data_entrega") && v["data_entrega"].s != ""
  {
    SchemaShape();
    NoErrorsIffValid(FardaAlunoSchema, v, NoEmail);
    FieldRules(v);
  }

  /** What `handleSubmit` passes to `onSubmit`: exactly the three fields as entered, no other key. */
  lemma SubmittedData(v: Values)
    ensures Validate(v).Valid? ==> Validate(v).data == Project(v, Fields)
  {
    SchemaShape();
    SubmittedIsStripped(FardaAlunoSchema, v, NoEmail);
  }

  /** `defaultValues`: editing copies both ids and the part of `data_entrega` before the first 'T';
      a record whose `data_entrega` is not text makes `split` throw; creating has no defaults. */
  function DefaultValues(fardaAluno: Option<Values>): (d: Result<Option<Values>, string>)
    ensures fardaAluno.None? ==> d == Success(None)
    ensures fardaAluno.Some? ==> (d.Failure? <==> !IsText(fardaAluno.value, "data_entrega"))
    ensures d.Failure? ==> d.error == SplitTypeError
    ensures fardaAluno.Some? && d.Success? ==>
      && d.value.Some?
      && d.value.value.Keys == Fields * fardaAluno.value.Keys
      && (forall k :: k in d.value.value && k != "data_entrega" ==> d.value.value[k] == fardaAluno.value[k])
      && d.value.value["data_entrega"] == Text(BeforeFirst(fardaAluno.value["data_entrega"].s, 'T'))
  {
    match fardaAluno
    case None => Success(None)
    case Some(rec) =>
      if IsText(rec, "data_entrega") then
        Success(Some(Project(rec, Fields)["data_entrega" := Text(BeforeFirst(rec["data_entrega"].s, 'T'))]))
      else Failure(SplitTypeError)
  }

  /** Cutting an ISO timestamp `date + "T" + time` at the first 'T' leaves the date an `<input type="date">` expects. */
  lemma TimestampBecomesDate(date: string, time: string)
    requires 'T' !in date
    ensures BeforeFirst(date + "T" + time, 'T') == date
  {
    BeforeFirstOfJoin(date, 'T', time);
  }

  /** Submitting edit-mode defaults unchanged: the ids are judged as stored, the date by its part before 'T'.
      So a record accepted as stored is accepted again exactly when that part is non-empty. */
  lemma EditVerdict(fardaAluno: Values)
    requires IsText(fardaAluno, "data_entrega")
    ensures DefaultValues(Some(fardaAluno)).Success?
    ensures Validate(DefaultValues(Some(fardaAluno)).value.value).Valid? <==>
      && NumberAtLeast(fardaAluno, "id_aluno", 1.0)
      && NumberAtLeast(fardaAluno, "id_farda", 1.0)
      && BeforeFirst(fardaAluno["data_entrega"].s, 'T') != ""
  {
    var d := DefaultValues(Some(fardaAluno)).value.value;
    ValidIff(d);
    ValidIff(fardaAluno);
  }
}
