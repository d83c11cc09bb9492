/** The subject form: `disciplinaSchema` and its edit-mode defaults. */
module DisciplinaForm {
  import opened Common
  import opened Zod

  const NomeMessage: string := "Nome deve ter no mínimo 3 caracteres"
  const NotaMessage: string := "Nota é obrigatória"
  const CargaHorariaMessage: string := "Carga horária deve ser maior que 0"
  const DescricaoMessage: string := "Descrição deve ter no mínimo 10 caracteres"

  /** `disciplinaSchema`. */
  const DisciplinaSchema: Schema := [
    Entry("nome", StringMin(3, NomeMessage)),
    Entry("id_nota", NumberMin(1.0, NotaMessage)),
    Entry("carga_horaria", NumberMin(1.0, CargaHorariaMessage)),
    Entry("descricao", StringMin(10, DescricaoMessage))
  ]

  const Fields: set<string> := {"nome", "id_nota", "carga_horaria", "descricao"}

  function Validate(v: Values): Parsed {
    Parse(DisciplinaSchema, v, NoEmail)
  }

  lemma SchemaShape()
    ensures UniqueNames(DisciplinaSchema) && Names(DisciplinaSchema) == Fields
  {
    assert DisciplinaSchema[0].name in Names(DisciplinaSchema) && DisciplinaSchema[1].name in Names(DisciplinaSchema);
    assert DisciplinaSchema[2].name in Names(DisciplinaSchema) && DisciplinaSchema[3].name in Names(DisciplinaSchema);
  }

  /** The two text fields: a name of at least 3 and a description of at least 10 characters. */
  lemma TextRules(v: Values)
    ensures ErrorFor(Validate(v), "nome").None? <==> TextAtLeast(v, "nome", 3)
    ensures ErrorFor(Validate(v), "descricao").None? <==> TextAtLeast(v, "descricao", 10)
    ensures IsText(v, "nome") && !TextAtLeast(v, "nome", 3) ==> ErrorFor(Validate(v), "nome") == Some(NomeMessage)
    ensures IsText(v, "descricao") && !TextAtLeast(v, "descricao", 10) ==>
      ErrorFor(Validate(v), "descricao") == Some(DescricaoMessage)
  {
    SchemaShape();
    StringMinField(DisciplinaSchema, v, NoEmail, 0);
    StringMinField(DisciplinaSchema, v, NoEmail, 3);
  }

  /** The grade select and the workload must be numbers of at least 1. */
  lemma NumberRules(v: Values)
    ensures ErrorFor(Validate(v), "id_nota").None? <==> NumberAtLeast(v, "id_nota", 1.0)
    ensures ErrorFor(Validate(v), "carga_horaria").None? <==> NumberAtLeast(v, "carga_horaria", 1.0)
    ensures IsNumber(v, "id_nota") && v["id_nota"].x < 1.0 ==> ErrorFor(Validate(v), "id_nota") == Some(NotaMessage)
    ensures IsNumber(v, "carga_horaria") && v["carga_horaria"].x < 1.0 ==>
      ErrorFor(Validate(v), "carga_horaria") == Some(CargaHorariaMessage)
  {
    SchemaShape();
    NumberMinField(DisciplinaSchema, v, NoEmail, 1);
    NumberMinField(DisciplinaSchema, v, NoEmail, 2);
  }

  /** A candidate is valid exactly when all four field rules hold. */
  lemma ValidIff(v: Values)
    ensures Validate(v).Valid? <==>
      && TextAtLeast(v, "nome", 3)
      && NumberAtLeast(v, "id_nota", 1.0)
      && NumberAtLeast(v, "carga_horaria", 1.0)
      && TextAtLeast(v, "descricao", 10)
  {
    SchemaShape();
    NoErrorsIffValid(DisciplinaSchema, v, NoEmail);
    TextRules(v);
    NumberRules(v);
  }

  /** What `handleSubmit` passes to `onSubmit`: exactly the four fields as entered, no other key. */
  lemma SubmittedData(v: Values)
    ensures Validate(v).Valid? ==> Validate(v).data == Project(v, Fields)
  {
    SchemaShape();
    SubmittedIsStripped(DisciplinaSchema, v, NoEmail);
  }

  /** Editing prefills the four fields from the record, which keeps the record's verdict; a new record has no defaults. */
  lemma EditKeepsVerdict(disciplina: Values)
    ensures Prefill(None, Fields) == None
    ensures Validate(Prefill(Some(disciplina), Fields).value) == Validate(disciplina)
  {
    SchemaShape();
    ProjectionKeepsVerdict(DisciplinaSchema, disciplina, Fields, NoEmail);
  }
}
