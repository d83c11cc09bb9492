/** The grade-weight form: `pesoSchema` and its edit-mode defaults. */
module PesoForm {
  import opened Common
  import opened Zod

  const DescricaoMessage: string := "Descrição é obrigatória"
  const PesoLowMessage: string := "Peso deve ser maior ou igual a 0"
  const PesoHighMessage: string := "Peso deve ser menor ou igual a 2"
  const ValorLowMessage: string := "Valor deve ser maior ou igual a 0"
  const ValorHighMessage: string := "Valor deve ser menor ou igual a 200"

  /** `pesoSchema`. */
  const PesoSchema: Schema := [
    Entry("descricao", StringMin(1, DescricaoMessage)),
    Entry("peso", NumberRange(0.0, PesoLowMessage, 2.0, PesoHighMessage)),
    Entry("valor", NumberRange(0.0, ValorLowMessage, 200.0, ValorHighMessage))
  ]

  const Fields: set<string> := {"descricao", "peso", "valor"}

  function Validate(v: Values): Parsed {
    Parse(PesoSchema, v, NoEmail)
  }

  lemma SchemaShape()
    ensures UniqueNames(PesoSchema) && Names(PesoSchema) == Fields
  {
    assert PesoSchema[0].name in Names(PesoSchema) && PesoSchema[1].name in Names(PesoSchema);
    assert PesoSchema[2].name in Names(PesoSchema);
  }

  /** A non-empty description, a weight in [0, 2] and a value in [0, 200], each bound with its own message. */
  lemma FieldRules(v: Values)
    ensures ErrorFor(Validate(v), "descricao").None? <==> IsText(v, "descricao") && v["descricao"].s != ""
    ensures ErrorFor(Validate(v), "peso").None? <==> NumberWithin(v, "peso", 0.0, 2.0)
    ensures ErrorFor(Validate(v), "valor").None? <==> NumberWithin(v, "valor", 0.0, 200.0)
    ensures IsText(v, "descricao") && v["descricao"].s == "" ==> ErrorFor(Validate(v), "descricao") == Some(DescricaoMessage)
    ensures IsNumber(v, "peso") && v["peso"].x < 0.0 ==> ErrorFor(Validate(v), "peso") == Some(PesoLowMessage)
    ensures IsNumber(v, "peso") && v["peso"].x > 2.0 ==> ErrorFor(Validate(v), "peso") == Some(PesoHighMessage)
    ensures IsNumber(v, "valor") && v["valor"].x < 0.0 ==> ErrorFor(Validate(v), "valor") == Some(ValorLowMessage)
    ensures IsNumber(v, "valor") && v["valor"].x > 200.0 ==> ErrorFor(Validate(v), "valor") == Some(ValorHighMessage)
  {
    SchemaShape();
    StringMinField(PesoSchema, v, NoEmail, 0);
    NumberRangeField(PesoSchema, v, NoEmail, 1);
    NumberRangeField(PesoSchema, v, NoEmail, 2);
  }

  /** A candidate is valid exactly when all three field rules hold. */
  lemma ValidIff(v: Values)
    ensures Validate(v).Valid? <==>
      && IsText(v, "descricao") && v["descricao"].s != ""
      && NumberWithin(v, "peso", 0.0, 2.0)
      && NumberWithin(v, "valor", 0.0, 200.0)
  {
    SchemaShape();
    NoErrorsIffValid(PesoSchema, v, NoEmail);
    FieldRules(v);
  }

  /** What `handleSubmit` passes to `onSubmit`: exactly the three fields as entered, no other key. */
  lemma SubmittedData(v: Values)
    ensures Validate(v).Valid? ==> Validate(v).data == Project(v, Fields)
  {
    SchemaShape();
    SubmittedIsStripped(PesoSchema, v, NoEmail);
  }

  /** Editing prefills the three fields from the record, which keeps the record's verdict. */
  lemma EditKeepsVerdict(peso: Values)
    ensures Validate(Prefill(Some(peso), Fields).value) == Validate(peso)
  {
    SchemaShape();
    ProjectionKeepsVerdict(PesoSchema, peso, Fields, NoEmail);
  }
}
