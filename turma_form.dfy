/** The class form: `turmaSchema` and its edit-mode defaults. */
module TurmaForm {
  import opened Common
  import opened Zod

  const AnoEscolarMessage: string := "Ano escolar é obrigatório"

  /** `turmaSchema`. */
  const TurmaSchema: Schema := [Entry("ano_escolar", StringMin(1, AnoEscolarMessage))]

  const Fields: set<string> := {"ano_escolar"}

  function Validate(v: Values): Parsed {
    Parse(TurmaSchema, v, NoEmail)
  }

  lemma SchemaShape()
    ensures UniqueNames(TurmaSchema) && Names(TurmaSchema) == Fields
  {
    assert TurmaSchema[0].name in Names(TurmaSchema);
  }

  /** The school year must be non-empty text; an empty one shows the form's message, a missing one zod's. */
  lemma ValidIff(v: Values)
    ensures Validate(v).Valid? <==> IsText(v, "ano_escolar") && v["ano_escolar"].s != ""
    ensures IsText(v, "ano_escolar") && v["ano_escolar"].s == "" ==> ErrorFor(Validate(v), "ano_escolar") == Some(AnoEscolarMessage)
    ensures "ano_escolar" !in v ==> ErrorFor(Validate(v), "ano_escolar") == Some(Required)
  {
    SchemaShape();
    NoErrorsIffValid(TurmaSchema, v, NoEmail);
    StringMinField(TurmaSchema, v, NoEmail, 0);
  }

  /** What `handleSubmit` passes to `onSubmit`: exactly the school year as entered, no other key. */
  lemma SubmittedData(v: Values)
    ensures Validate(v).Valid? ==> Validate(v).data == map["ano_escolar" := v["ano_escolar"]]
  {
    SchemaShape();
    SubmittedIsStripped(TurmaSchema, v, NoEmail);
  }

  /** Editing prefills the school year from the record, which keeps the record's verdict. */
  lemma EditKeepsVerdict(turma: Values)
    ensures Validate(Prefill(Some(turma), Fields).value) == Validate(turma)
  {
    SchemaShape();
    ProjectionKeepsVerdict(TurmaSchema, turma, Fields, NoEmail);
  }
}
