/** The grade form: `notaSchema` and its edit-mode defaults. */
module NotaForm {
  import opened Common
  import opened Zod

  const NegativeMessage: string := "A nota não pode ser negativa"
  const AboveTenMessage: string := "A nota não pode ser maior que 10"

  /** `notaSchema`: a grade between 0 and 10 inclusive. */
  const NotaSchema: Schema := [Entry("valor", NumberRange(0.0, NegativeMessage, 10.0, AboveTenMessage))]

  const Fields: set<string> := {"valor"}

  function Validate(v: Values): Parsed {
    Parse(NotaSchema, v, NoEmail)
  }

  lemma SchemaShape()
    ensures UniqueNames(NotaSchema) && Names(NotaSchema) == Fields
  {
    assert NotaSchema[0].name in Names(NotaSchema);
  }

  /** A grade is accepted exactly in [0, 10]; below 0 and above 10 each show their own message. */
  lemma ValidIff(v: Values)
    ensures Validate(v).Valid? <==> NumberWithin(v, "valor", 0.0, 10.0)
    ensures IsNumber(v, "valor") && v["valor"].x < 0.0 ==> ErrorFor(Validate(v), "valor") == Some(NegativeMessage)
    ensures IsNumber(v, "valor") && v["valor"].x > 10.0 ==> ErrorFor(Validate(v), "valor") == Some(AboveTenMessage)
  {
    SchemaShape();
    NoErrorsIffValid(NotaSchema, v, NoEmail);
    NumberRangeField(NotaSchema, v, NoEmail, 0);
  }

  /** What `handleSubmit` passes to `onSubmit`: exactly the grade as entered, no other key. */
  lemma SubmittedData(v: Values)
    ensures Validate(v).Valid? ==> Validate(v).data == map["valor" := v["valor"]]
  {
    SchemaShape();
    SubmittedIsStripped(NotaSchema, v, NoEmail);
  }

  /** Editing prefills the grade from the record, which keeps the record's verdict. */
  lemma EditKeepsVerdict(nota: Values)
    ensures Validate(Prefill(Some(nota), Fields).value) == Validate(nota)
  {
    SchemaShape();
    ProjectionKeepsVerdict(NotaSchema, nota, Fields, NoEmail);
  }
}
