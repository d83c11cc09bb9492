/** The teacher form: `professorSchema` and its edit-mode defaults. */
module ProfessorForm {
  import opened Common
  import opened Zod

  const NomeMessage: string := "Nome deve ter no mínimo 3 caracteres"
  const TurmaMessage: string := "Turma é obrigatória"
  const DiretorMessage: string := "Diretor é obrigatório"

  /** `professorSchema`. */
  const ProfessorSchema: Schema := [
    Entry("nome", StringMin(3, NomeMessage)),
    Entry("id_turma", NumberMin(1.0, TurmaMessage)),
    Entry("id_diretor", NumberMin(1.0, DiretorMessage))
  ]

  const Fields: set<string> := {"nome", "id_turma", "id_diretor"}

  function Validate(v: Values): Parsed {
    Parse(ProfessorSchema, v, NoEmail)
  }

  lemma SchemaShape()
    ensures UniqueNames(ProfessorSchema) && Names(ProfessorSchema) == Fields
  {
    assert ProfessorSchema[0].name in Names(ProfessorSchema) && ProfessorSchema[1].name in Names(ProfessorSchema);
    assert ProfessorSchema[2].name in Names(ProfessorSchema);
  }

  /** The name needs at least 3 characters; the class and director selects need numbers of at least 1. */
  lemma FieldRules(v: Values)
    ensures ErrorFor(Validate(v), "nome").None? <==> TextAtLeast(v, "nome", 3)
    ensures ErrorFor(Validate(v), "id_turma").None? <==> NumberAtLeast(v, "id_turma", 1.0)
    ensures ErrorFor(Validate(v), "id_diretor").None? <==> NumberAtLeast(v, "id_diretor", 1.0)
    ensures IsText(v, "nome") && !TextAtLeast(v, "nome", 3) ==> ErrorFor(Validate(v), "nome") == Some(NomeMessage)
    ensures IsNumber(v, "id_turma") && v["id_turma"].x < 1.0 ==> ErrorFor(Validate(v), "id_turma") == Some(TurmaMessage)
    ensures IsNumber(v, "id_diretor") && v["id_diretor"].x < 1.0 ==> ErrorFor(Validate(v), "id_diretor") == Some(DiretorMessage)
  {
    SchemaShape();
    StringMinField(ProfessorSchema, v, NoEmail, 0);
    NumberMinField(ProfessorSchema, v, NoEmail, 1);
    NumberMinField(ProfessorSchema, v, NoEmail, 2);
  }

  /** A candidate is valid exactly when all three field rules hold. */
  lemma ValidIff(v: Values)
    ensures Validate(v).Valid? <==>
      TextAtLeast(v, "nome", 3) && NumberAtLeast(v, "id_turma", 1.0) && NumberAtLeast(v, "id_diretor", 1.0)
  {
    SchemaShape();
    NoErrorsIffValid(ProfessorSchema, v, NoEmail);
    FieldRules(v);
  }

  /** What `handleSubmit` passes to `onSubmit`: exactly the three fields as entered, no other key. */
  lemma SubmittedData(v: Values)
    ensures Validate(v).Valid? ==> Validate(v).data == Project(v, Fields)
  {
    SchemaShape();
    SubmittedIsStripped(ProfessorSchema, v, NoEmail);
  }

  /** Editing prefills the three fields from the record, which keeps the record's verdict. */
  lemma EditKeepsVerdict(professor: Values)
    ensures Validate(Prefill(Some(professor), Fields).value) == Validate(professor)
  {
    SchemaShape();
    ProjectionKeepsVerdict(ProfessorSchema, professor, Fields, NoEmail);
  }
}
