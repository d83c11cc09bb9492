/** The uniform form: `fardamentoSchema` over two fixed option lists, and its edit-mode defaults. */
module FardamentoForm {
  import opened Common
  import opened Zod

  /** `TIPOS_FARDAMENTO`. */
  const Tipos: seq<string> := ["Uniforme de Gala", "Uniforme de Educação Física", "Uniforme Diário", "Uniforme de Campo"]
  /** `TAMANHOS`. */
  const Tamanhos: seq<string> := ["P", "M", "G", "GG"]

  const TipoMessage: string := "Selecione um tipo de fardamento"
  const TamanhoMessage: string := "Selecione um tamanho válido"

  /** `fardamentoSchema`: both enums carry an error map, so every problem shows the form's own message. */
  const FardamentoSchema: Schema := [
    Entry("tipo", Enum(Tipos, TipoMessage)),
    Entry("tamanho", Enum(Tamanhos, TamanhoMessage))
  ]

  const Fields: set<string> := {"tipo", "tamanho"}

  function Validate(v: Values): Parsed {
    Parse(FardamentoSchema, v, NoEmail)
  }

  lemma SchemaShape()
    ensures UniqueNames(FardamentoSchema) && Names(FardamentoSchema) == Fields
  {
    assert FardamentoSchema[0].name in Names(FardamentoSchema) && FardamentoSchema[1].name in Names(FardamentoSchema);
  }

  /** Each field accepts exactly its four options; anything else, a missing value included, shows the form's message. */
  lemma FieldRules(v: Values)
    ensures ErrorFor(Validate(v), "tipo").None? <==> IsText(v, "tipo") && v["tipo"].s in Tipos
    ensures ErrorFor(Validate(v), "tamanho").None? <==> IsText(v, "tamanho") && v["tamanho"].s in Tamanhos
    ensures ErrorFor(Validate(v), "tipo").Some? ==> ErrorFor(Validate(v), "tipo") == Some(TipoMessage)
    ensures ErrorFor(Validate(v), "tamanho").Some? ==> ErrorFor(Validate(v), "tamanho") == Some(TamanhoMessage)
  {
    SchemaShape();
    EnumField(FardamentoSchema, v, NoEmail, 0);
    EnumField(FardamentoSchema, v, NoEmail, 1);
  }

  /** A candidate is valid exactly when both fields hold one of their options. */
  lemma ValidIff(v: Values)
    ensures Validate(v).Valid? <==>
      IsText(v, "tipo") && v["tipo"].s in Tipos && IsText(v, "tamanho") && v["tamanho"].s in Tamanhos
  {
    SchemaShape();
    NoErrorsIffValid(FardamentoSchema, v, NoEmail);
    FieldRules(v);
  }

  /** The empty "Selecione..." option is not one of the choices, so leaving either select untouched is refused. */
  lemma PlaceholderRefused(v: Values)
    ensures "tipo" in v && v["tipo"] == Text("") ==> ErrorFor(Validate(v), "tipo") == Some(TipoMessage)
    ensures "tamanho" in v && v["tamanho"] == Text("") ==> ErrorFor(Validate(v), "tamanho") == Some(TamanhoMessage)
  {
    FieldRules(v);
  }

  /** A stored record whose `tipo` or `tamanho` is outside the option lists loads into the form as it is and is
      refused with the form's message until the user picks an option. */
  lemma StoredOutsideOptionsRefused(fardamento: Values)
    ensures IsText(fardamento, "tipo") && fardamento["tipo"].s !in Tipos ==>
      ErrorFor(Validate(Prefill(Some(fardamento), Fields).value), "tipo") == Some(TipoMessage)
    ensures IsText(fardamento, "tamanho") && fardamento["tamanho"].s !in Tamanhos ==>
      ErrorFor(Validate(Prefill(Some(fardamento), Fields).value), "tamanho") == Some(TamanhoMessage)
  {
    EditKeepsVerdict(fardamento);
    FieldRules(fardamento);
  }

  /** What `handleSubmit` passes to `onSubmit`: exactly the two fields as entered, no other key. */
  lemma SubmittedData(v: Values)
    ensures Validate(v).Valid? ==> Validate(v).data == Project(v, Fields)
  {
    SchemaShape();
    SubmittedIsStripped(FardamentoSchema, v, NoEmail);
  }

  /** Editing copies `tipo` and `tamanho` unchecked (`as any`); the copy keeps the record's verdict, so a stored
      value outside the option lists is refused on submit rather than on load. */
  lemma EditKeepsVerdict(fardamento: Values)
    ensures Validate(Prefill(Some(fardamento), Fields).value) == Validate(fardamento)
  {
    SchemaShape();
    ProjectionKeepsVerdict(FardamentoSchema, fardamento, Fields, NoEmail);
  }
}
