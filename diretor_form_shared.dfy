/**
 * The director form kept with the shared form components: `diretorSchema`, whose email rule is a
 * parameter here, and defaults that copy the five schema fields or start a new director as active.
 */
module DiretorFormShared {
  import opened Common
  import opened Zod

  const NomeMessage: string := "Nome deve ter no mínimo 3 caracteres"
  const CargoMilitarMessage: string := "Cargo militar é obrigatório"
  const TelefoneMessage: string := "Telefone inválido"
  const EmailMessage: string := "Email inválido"

  /** `diretorSchema`. */
  const DiretorSchema: Schema := [
    Entry("nome", StringMin(3, NomeMessage)),
    Entry("cargo_militar", StringMin(2, CargoMilitarMessage)),
    Entry("telefone", StringMin(10, TelefoneMessage)),
    Entry("email", StringEmail(EmailMessage)),
    Entry("ativo", BooleanDefault(true))
  ]

  const Fields: set<string> := {"nome", "cargo_militar", "telefone", "email", "ativo"}

  /** The defaults of a new director: `{ ativo: true }`. */
  const NewDirector: Values := map["ativo" := Flag(true)]

  function Validate(v: Values, isEmail: string -> bool): Parsed {
    Parse(DiretorSchema, v, isEmail)
  }

  lemma SchemaShape()
    ensures UniqueNames(DiretorSchema) && Names(DiretorSchema) == Fields
  {
    assert DiretorSchema[0].name in Names(DiretorSchema) && DiretorSchema[1].name in Names(DiretorSchema);
    assert DiretorSchema[2].name in Names(DiretorSchema) && DiretorSchema[3].name in Names(DiretorSchema);
    assert DiretorSchema[4].name in Names(DiretorSchema);
  }

  /** Minimum lengths 3, 2 and 10 for name, rank and phone; an address the email rule accepts; `ativo` refused only
      when it holds something other than a boolean. */
  lemma FieldRules(v: Values, isEmail: string -> bool)
    ensures ErrorFor(Validate(v, isEmail), "nome").None? <==> TextAtLeast(v, "nome", 3)
    ensures ErrorFor(Validate(v, isEmail), "cargo_militar").None? <==> TextAtLeast(v, "cargo_militar", 2)
    ensures ErrorFor(Validate(v, isEmail), "telefone").None? <==> TextAtLeast(v, "telefone", 10)
    ensures ErrorFor(Validate(v, isEmail), "email").None? <==> IsText(v, "email") && isEmail(v["email"].s)
    ensures ErrorFor(Validate(v, isEmail), "ativo").None? <==> ("ativo" in v ==> v["ativo"].Flag?)
    ensures IsText(v, "nome") && !TextAtLeast(v, "nome", 3) ==> ErrorFor(Validate(v, isEmail), "nome") == Some(NomeMessage)
    ensures IsText(v, "cargo_militar") && !TextAtLeast(v, "cargo_militar", 2) ==>
      ErrorFor(Validate(v, isEmail), "cargo_militar") == Some(CargoMilitarMessage)
    ensures IsText(v, "telefone") && !TextAtLeast(v, "telefone", 10) ==>
      ErrorFor(Validate(v, isEmail), "telefone") == Some(TelefoneMessage)
    ensures IsText(v, "email") && !isEmail(v["email"].s) ==> ErrorFor(Validate(v, isEmail), "email") == Some(EmailMessage)
  {
    SchemaShape();
    StringMinField(DiretorSchema, v, isEmail, 0);
    StringMinField(DiretorSchema, v, isEmail, 1);
    StringMinField(DiretorSchema, v, isEmail, 2);
    StringEmailField(DiretorSchema, v, isEmail, 3);
    BooleanDefaultField(DiretorSchema, v, isEmail, 4);
  }

  /** A candidate is valid exactly when all five field rules hold. */
  lemma ValidIff(v: Values, isEmail: string -> bool)
    ensures Validate(v, isEmail).Valid? <==>
      && TextAtLeast(v, "nome", 3)
      && TextAtLeast(v, "cargo_militar", 2)
      && TextAtLeast(v, "telefone", 10)
      && IsText(v, "email") && isEmail(v["email"].s)
      && ("ativo" in v ==> v["ativo"].Flag?)
  {
    SchemaShape();
    NoErrorsIffValid(DiretorSchema, v, isEmail);
    FieldRules(v, isEmail);
  }

  /** What `handleSubmit` passes to `onSubmit`: the five fields as entered, `ativo` true when it was left out. */
  lemma SubmittedData(v: Values, isEmail: string -> bool)
    ensures Validate(v, isEmail).Valid? ==>
      Validate(v, isEmail).data == Project(v, Fields)["ativo" := if "ativo" in v then v["ativo"] else Flag(true)]
  {
    SchemaShape();
    SubmittedKeepsValues(DiretorSchema, v, isEmail);
    BooleanDefaultField(DiretorSchema, v, isEmail, 4);
    ValidIff(v, isEmail);
  }

  /** `defaultValues`: an edited director's five fields, or `{ ativo: true }` for a new one. */
  function DefaultValues(diretor: Option<Values>): (d: Values)
    ensures diretor.None? ==> d == NewDirector
    ensures diretor.Some? ==> d.Keys == Fields * diretor.value.Keys && forall k :: k in d ==> d[k] == diretor.value[k]
  {
    if diretor.None? then NewDirector else Project(diretor.value, Fields)
  }

  /** Editing a director and submitting unchanged gets the verdict the stored record gets. */
  lemma EditKeepsVerdict(diretor: Values, isEmail: string -> bool)
    ensures Validate(DefaultValues(Some(diretor)), isEmail) == Validate(diretor, isEmail)
  {
    SchemaShape();
    ProjectionKeepsVerdict(DiretorSchema, diretor, Fields, isEmail);
  }

  /** Parsing the create defaults `{ ativo: true }` alone reports zod's missing-value message under the four
      text fields, and nothing under `ativo`. */
  lemma NewDirectorNeedsInput(isEmail: string -> bool)
    ensures Validate(DefaultValues(None), isEmail).Invalid?
    ensures forall name :: name in {"nome", "cargo_militar", "telefone", "email"} ==>
      ErrorFor(Validate(DefaultValues(None), isEmail), name) == Some(Required)
    ensures ErrorFor(Validate(DefaultValues(None), isEmail), "ativo") == None
  {
    SchemaShape();
    var v := DefaultValues(None);
    StringMinField(DiretorSchema, v, isEmail, 0);
    StringMinField(DiretorSchema, v, isEmail, 1);
    StringMinField(DiretorSchema, v, isEmail, 2);
    StringEmailField(DiretorSchema, v, isEmail, 3);
    BooleanDefaultField(DiretorSchema, v, isEmail, 4);
  }

  /** The create defaults with the four registered text inputs left empty, as the form submits them untouched. */
  const UntouchedNewDirector: Values :=
    NewDirector["nome" := Text("")]["cargo_militar" := Text("")]["telefone" := Text("")]["email" := Text("")]

  /** Submitting a new director's form untouched shows each text field's own message, and none under `ativo`. */
  lemma UntouchedNewDirectorRefused(isEmail: string -> bool)
    requires !isEmail("")
    ensures Validate(UntouchedNewDirector, isEmail).Invalid?
    ensures ErrorFor(Validate(UntouchedNewDirector, isEmail), "nome") == Some(NomeMessage)
    ensures ErrorFor(Validate(UntouchedNewDirector, isEmail), "cargo_militar") == Some(CargoMilitarMessage)
    ensures ErrorFor(Validate(UntouchedNewDirector, isEmail), "telefone") == Some(TelefoneMessage)
    ensures ErrorFor(Validate(UntouchedNewDirector, isEmail), "email") == Some(EmailMessage)
    ensures ErrorFor(Validate(UntouchedNewDirector, isEmail), "ativo") == None
  {
    var v := UntouchedNewDirector;
    assert IsText(v, "nome") && IsText(v, "cargo_militar") && IsText(v, "telefone") && IsText(v, "email");
    assert v["email"].s == "" && v["ativo"] == Flag(true);
    FieldRules(v, isEmail);
    ValidIff(v, isEmail);
  }
}
