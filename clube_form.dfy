/** The club form: `clubeSchema` and its edit-mode defaults. */
module ClubeForm {
  import opened Common
  import opened Zod

  const NomeMessage: string := "Nome deve ter no mínimo 3 caracteres"
  const DescricaoMessage: string := "Descrição deve ter no mínimo 10 caracteres"

  /** `clubeSchema`. */
  const ClubeSchema: Schema := [
    Entry("nome", StringMin(3, NomeMessage)),
    Entry("descricao", StringMin(10, DescricaoMessage))
  ]

  const Fields: set<string> := {"nome", "descricao"}

  function Validate(v: Values): Parsed {
    Parse(ClubeSchema, v, NoEmail)
  }

  lemma SchemaShape()
    ensures UniqueNames(ClubeSchema) && Names(ClubeSchema) == Fields
  {
    assert ClubeSchema[0].name in Names(ClubeSchema) && ClubeSchema[1].name in Names(ClubeSchema);
  }

  /** A name of at least 3 and a description of at least 10 characters. */
  lemma FieldRules(v: Values)
    ensures ErrorFor(Validate(v), "nome").None? <==> TextAtLeast(v, "nome", 3)
    ensures ErrorFor(Validate(v), "descricao").None? <==> TextAtLeast(v, "descricao", 10)
    ensures IsText(v, "nome") && !TextAtLeast(v, "nome", 3) ==> ErrorFor(Validate(v), "nome") == Some(NomeMessage)
    ensures IsText(v, "descricao") && !TextAtLeast(v, "descricao", 10) ==>
      ErrorFor(Validate(v), "descricao") == Some(DescricaoMessage)
  {
    SchemaShape();
    StringMinField(ClubeSchema, v, NoEmail, 0);
    StringMinField(ClubeSchema, v, NoEmail, 1);
  }

  /** A candidate is valid exactly when both field rules hold. */
  lemma ValidIff(v: Values)
    ensures Validate(v).Valid? <==> TextAtLeast(v, "nome", 3) && TextAtLeast(v, "descricao", 10)
  {
    SchemaShape();
    NoErrorsIffValid(ClubeSchema, v, NoEmail);
    FieldRules(v);
  }

  /** What `handleSubmit` passes to `onSubmit`: exactly the two fields as entered, no other key. */
  lemma SubmittedData(v: Values)
    ensures Validate(v).Valid? ==> Validate(v).data == Project(v, Fields)
  {
    SchemaShape();
    SubmittedIsStripped(ClubeSchema, v, NoEmail);
  }

  /** Editing prefills the two fields from the record, which keeps the record's verdict. */
  lemma EditKeepsVerdict(clube: Values)
    ensures Validate(Prefill(Some(clube), Fields).value) == Validate(clube)
  {
    SchemaShape();
    ProjectionKeepsVerdict(ClubeSchema, clube, Fields, NoEmail);
  }
}
