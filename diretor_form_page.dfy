/**
 * The director form kept with the director pages: the same `diretorSchema`, but its defaults are the
 * whole stored record (`diretor || { ativo: true }`).
 */
module DiretorFormPage {
  import opened Common
  import opened Zod
  import DiretorFormShared

  /** `diretorSchema`, declared again in this file with the same rules and messages. */
  const DiretorSchema: Schema := [
    Entry("nome", StringMin(3, "Nome deve ter no mínimo 3 caracteres")),
    Entry("cargo_militar", StringMin(2, "Cargo militar é obrigatório")),
    Entry("telefone", StringMin(10, "Telefone inválido")),
    Entry("email", StringEmail("Email inválido")),
    Entry("ativo", BooleanDefault(true))
  ]

  function Validate(v: Values, isEmail: string -> bool): Parsed {
    Parse(DiretorSchema, v, isEmail)
  }

  /** `defaultValues: diretor || { ativo: true }`. */
  function DefaultValues(diretor: Option<Values>): (d: Values)
    ensures diretor.Some? ==> d == diretor.value
    ensures diretor.None? ==> d.Keys == {"ativo"} && d["ativo"] == Flag(true)
  {
    if diretor.Some? then diretor.value else map["ativo" := Flag(true)]
  }

  /** The two director forms judge every candidate alike, and each form's defaults, for a new or an edited director,
      get the same verdict, although this one keeps keys such as `id_diretor` that the other drops. */
  lemma AgreesWithSharedForm(diretor: Option<Values>, v: Values, isEmail: string -> bool)
    ensures Validate(v, isEmail) == DiretorFormShared.Validate(v, isEmail)
    ensures Validate(DefaultValues(diretor), isEmail) ==
      DiretorFormShared.Validate(DiretorFormShared.DefaultValues(diretor), isEmail)
  {
    assert DiretorSchema == DiretorFormShared.DiretorSchema;
    if diretor.Some? {
      DiretorFormShared.EditKeepsVerdict(diretor.value, isEmail);
    }
  }

  /** Everything proved about the shared form's rules therefore holds here: valid exactly when all five rules hold. */
  lemma ValidIff(v: Values, isEmail: string -> bool)
    ensures Validate(v, isEmail).Valid? <==>
      && TextAtLeast(v, "nome", 3)
      && TextAtLeast(v, "cargo_militar", 2)
      && TextAtLeast(v, "telefone", 10)
      && IsText(v, "email") && isEmail(v["email"].s)
      && ("ativo" in v ==> v["ativo"].Flag?)
  {
    AgreesWithSharedForm(None, v, isEmail);
    DiretorFormShared.ValidIff(v, isEmail);
  }
}
