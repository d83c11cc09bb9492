/** The guardian form: `responsavelSchema` and its edit-mode defaults. */
module ResponsavelForm {
  import opened Common
  import opened Zod

  const NomeMessage: string := "Nome deve ter no mínimo 3 caracteres"
  const TelefoneMessage: string := "Telefone inválido"
  const ParentescoMessage: string := "Parentesco é obrigatório"

  /** `responsavelSchema`. */
  const ResponsavelSchema: Schema := [
    Entry("nome", StringMin(3, NomeMessage)),
    Entry("telefone", StringMin(10, TelefoneMessage)),
    Entry("parentesco", StringMin(2, ParentescoMessage))
  ]

  const Fields: set<string> := {"nome", "telefone", "parentesco"}

  function Validate(v: Values): Parsed {
    Parse(ResponsavelSchema, v, NoEmail)
  }

  lemma SchemaShape()
    ensures UniqueNames(ResponsavelSchema) && Names(ResponsavelSchema) == Fields
  {
    assert ResponsavelSchema[0].name in Names(ResponsavelSchema) && ResponsavelSchema[1].name in Names(ResponsavelSchema);
    assert ResponsavelSchema[2].name in Names(ResponsavelSchema);
  }

  /** Minimum lengths 3, 10 and 2; the phone number's digits are not checked, only its length. */
  lemma FieldRules(v: Values)
    ensures ErrorFor(Validate(v), "nome").None? <==> TextAtLeast(v, "nome", 3)
    ensures ErrorFor(Validate(v), "telefone").None? <==> TextAtLeast(v, "telefone", 10)
    ensures ErrorFor(Validate(v), "parentesco").None? <==> TextAtLeast(v, "parentesco", 2)
    ensures IsText(v, "nome") && !TextAtLeast(v, "nome", 3) ==> ErrorFor(Validate(v), "nome") == Some(NomeMessage)
    ensures IsText(v, "telefone") && !TextAtLeast(v, "telefone", 10) ==> ErrorFor(Validate(v), "telefone") == Some(TelefoneMessage)
    ensures IsText(v, "parentesco") && !TextAtLeast(v, "parentesco", 2) ==>
      ErrorFor(Validate(v), "parentesco") == Some(ParentescoMessage)
  {
    SchemaShape();
    StringMinField(ResponsavelSchema, v, NoEmail, 0);
    StringMinField(ResponsavelSchema, v, NoEmail, 1);
    StringMinField(ResponsavelSchema, v, NoEmail, 2);
  }

  /** A candidate is valid exactly when all three field rules hold. */
  lemma ValidIff(v: Values)
    ensures Validate(v).Valid? <==>
      TextAtLeast(v, "nome", 3) && TextAtLeast(v, "telefone", 10) && TextAtLeast(v, "parentesco", 2)
  {
    SchemaShape();
    NoErrorsIffValid(ResponsavelSchema, v, NoEmail);
    FieldRules(v);
  }

  /** What `handleSubmit` passes to `onSubmit`: exactly the three fields as entered, no other key. */
  lemma SubmittedData(v: Values)
    ensures Validate(v).Valid? ==> Validate(v).data == Project(v, Fields)
  {
    SchemaShape();
    SubmittedIsStripped(ResponsavelSchema, v, NoEmail);
  }

  /** Editing prefills the three fields from the record, which keeps the record's verdict. */
  lemma EditKeepsVerdict(responsavel: Values)
    ensures Validate(Prefill(Some(responsavel), Fields).value) == Validate(responsavel)
  {
    SchemaShape();
    ProjectionKeepsVerdict(ResponsavelSchema, responsavel, Fields, NoEmail);
  }
}
