/** The student form: `alunoSchema` and the values it is prefilled with when editing. */
module AlunoForm {
  import opened Common
  import opened Zod

  const NomeMessage: string := "Nome deve ter no mínimo 3 caracteres"
  const DataNascMessage: string := "Data de nascimento é obrigatória"
  const SexoMessage: string := "Sexo é obrigatório"
  const TurmaMessage: string := "Turma é obrigatória"
  const ResponsavelMessage: string := "Responsável é obrigatório"

  /** `alunoSchema`. */
  const AlunoSchema: Schema := [
    Entry("nome", StringMin(3, NomeMessage)),
    Entry("data_nasc", StringMin(1, DataNascMessage)),
    Entry("sexo", StringMin(1, SexoMessage)),
    Entry("id_turma", NumberMin(1.0, TurmaMessage)),
    Entry("id_responsavel", NumberMin(1.0, ResponsavelMessage))
  ]

  const Fields: set<string> := {"nome", "data_nasc", "sexo", "id_turma", "id_responsavel"}

  function Validate(v: Values): Parsed {
    Parse(AlunoSchema, v, NoEmail)
  }

  lemma SchemaShape()
    ensures UniqueNames(AlunoSchema) && Names(AlunoSchema) == Fields
  {
    assert AlunoSchema[0].name in Names(AlunoSchema) && AlunoSchema[1].name in Names(AlunoSchema);
    assert AlunoSchema[2].name in Names(AlunoSchema) && AlunoSchema[3].name in Names(AlunoSchema);
    assert AlunoSchema[4].name in Names(AlunoSchema);
  }

  /** A candidate is valid exactly when all five field rules hold. */
  lemma ValidIff(v: Values)
    ensures Validate(v).Valid? <==>
      && TextAtLeast(v, "nome", 3)
      && TextAtLeast(v, "data_nasc", 1)
      && TextAtLeast(v, "sexo", 1)
      && NumberAtLeast(v, "id_turma", 1.0)
      && NumberAtLeast(v, "id_responsavel", 1.0)
  {
    SchemaShape();
    NoErrorsIffValid(AlunoSchema, v, NoEmail);
    NomeRule(v);
    DataNascAndSexoRules(v);
    ForeignKeyRules(v);
  }

  /** `nome` needs at least 3 characters. */
  lemma NomeRule(v: Values)
    ensures ErrorFor(Validate(v), "nome").None? <==> TextAtLeast(v, "nome", 3)
    ensures IsText(v, "nome") && !TextAtLeast(v, "nome", 3) ==> ErrorFor(Validate(v), "nome") == Some(NomeMessage)
  {
    SchemaShape();
    StringMinField(AlunoSchema, v, NoEmail, 0);
  }

  /** `data_nasc` and `sexo` must be non-empty text; any non-empty `sexo` passes, not only M or F. */
  lemma DataNascAndSexoRules(v: Values)
    ensures ErrorFor(Validate(v), "data_nasc").None? <==> IsText(v, "data_nasc") && v["data_nasc"].s != ""
    ensures ErrorFor(Validate(v), "sexo").None? <==> IsText(v, "sexo") && v["sexo"].s != ""
    ensures IsText(v, "data_nasc") && v["data_nasc"].s == "" ==> ErrorFor(Validate(v), "data_nasc") == Some(DataNascMessage)
    ensures IsText(v, "sexo") && v["sexo"].s == "" ==> ErrorFor(Validate(v), "sexo") == Some(SexoMessage)
  {
    SchemaShape();
    StringMinField(AlunoSchema, v, NoEmail, 1);
    StringMinField(AlunoSchema, v, NoEmail, 2);
  }

  /** The class and guardian selects must hold numbers of at least 1. */
  lemma ForeignKeyRules(v: Values)
    ensures ErrorFor(Validate(v), "id_turma").None? <==> NumberAtLeast(v, "id_turma", 1.0)
    ensures ErrorFor(Validate(v), "id_responsavel").None? <==> NumberAtLeast(v, "id_responsavel", 1.0)
    ensures IsNumber(v, "id_turma") && v["id_turma"].x < 1.0 ==> ErrorFor(Validate(v), "id_turma") == Some(TurmaMessage)
    ensures IsNumber(v, "id_responsavel") && v["id_responsavel"].x < 1.0 ==>
      ErrorFor(Validate(v), "id_responsavel") == Some(ResponsavelMessage)
  {
    SchemaShape();
    NumberMinField(AlunoSchema, v, NoEmail, 3);
    NumberMinField(AlunoSchema, v, NoEmail, 4);
  }

  /** Messages appear only under the five schema fields. */
  lemma ErrorsOnlyUnderFields(v: Values, name: string)
    requires name !in Fields
    ensures ErrorFor(Validate(v), name) == None
  {
    SchemaShape();
    ErrorsOnlyForSchemaFields(AlunoSchema, v, NoEmail, name);
  }

  /** What `handleSubmit` passes to `onSubmit`: exactly the five fields as entered, no other key. */
  lemma SubmittedData(v: Values)
    ensures Validate(v).Valid? ==> Validate(v).data == Project(v, Fields)
  {
    SchemaShape();
    SubmittedIsStripped(AlunoSchema, v, NoEmail);
  }

  /** Opening a record for editing (`defaultValues` copies the five fields) and submitting it unchanged
      gets exactly the verdict the record itself gets; a new record starts with no defaults. */
  lemma EditKeepsVerdict(aluno: Values)
    ensures Prefill(None, Fields) == None
    ensures Validate(Prefill(Some(aluno), Fields).value) == Validate(aluno)
  {
    SchemaShape();
    ProjectionKeepsVerdict(AlunoSchema, aluno, Fields, NoEmail);
  }
}
