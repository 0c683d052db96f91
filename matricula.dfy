/**
 * The two HTTP handlers of the real-estate API: the status message and the
 * keyword interpreter for the text of a property registration ("matrícula").
 * Routing and request validation are not modelled: a handler is a function
 * from the request's text to the response record.
 */
module Matricula {
  import opened Text

  const HomeMessage := "AOVB Real Estate Connect API - Online"

  // Keywords searched for in the lowercased text.
  const Joao := "joão"
  const SaoPaulo := "são paulo"
  const Sp := "sp"
  const Hipoteca := "hipoteca"
  const Averbacao := "averbação"

  // Values the response can carry.
  const TitularJoao := "João da Silva"
  const TitularDesconhecido := "Titular não identificado"
  const UfSp := "SP"
  const UfDesconhecida := "UF desconhecida"
  const RiscoHipoteca := "Hipoteca encontrada - verificar quitação"
  const RiscoSemAverbacoes := "Sem averbações recentes"

  datatype HomeResponse = HomeResponse(message: string)

  /** The response of the interpreter: the four keys of the returned dictionary. */
  datatype Resposta = Resposta(matricula: string, titular: string, uf: string, riscos: seq<string>)

  /** The status endpoint answers with one fixed message, whatever the state. */
  function Home(): (r: HomeResponse)
    ensures r.message == HomeMessage
  {
    HomeResponse(HomeMessage)
  }

  /**
   * The risk list, built by appending to an initially empty list: the mortgage
   * warning when the text mentions "hipoteca", then the no-annotation notice
   * when it does not mention "averbação".
   */
  function Riscos(texto: string): (r: seq<string>)
    ensures RiscoHipoteca in r <==> Contains(texto, Hipoteca)
    ensures RiscoSemAverbacoes in r <==> !Contains(texto, Averbacao)
    ensures forall x :: x in r ==> x == RiscoHipoteca || x == RiscoSemAverbacoes
    ensures |r| <= 2
    ensures forall i, j :: 0 <= i < j < |r| ==> r[i] != r[j]
    ensures |r| == 2 ==> r[0] == RiscoHipoteca && r[1] == RiscoSemAverbacoes
  {
    var riscos := [];
    var riscos := if Contains(texto, Hipoteca) then riscos + [RiscoHipoteca] else riscos;
    if !Contains(texto, Averbacao) then riscos + [RiscoSemAverbacoes] else riscos
  }

  /**
   * The interpreter. `lower` stands for the language's lowercasing of strings,
   * which is applied once; every keyword test is made on its result, which is
   * also echoed back as `matricula`. There is no failure path.
   */
  function InterpretaMatricula(lower: string -> string, textoMatricula: string): (r: Resposta)
    ensures r.matricula == lower(textoMatricula)
    ensures r.titular == TitularJoao <==> Contains(r.matricula, Joao)
    ensures r.titular == TitularJoao || r.titular == TitularDesconhecido
    ensures r.uf == UfSp <==> Contains(r.matricula, SaoPaulo) || Contains(r.matricula, Sp)
    ensures r.uf == UfSp || r.uf == UfDesconhecida
    ensures r.riscos == Riscos(r.matricula)
  {
    var texto := lower(textoMatricula);
    Resposta(
      texto,
      if Contains(texto, Joao) then TitularJoao else TitularDesconhecido,
      if Contains(texto, SaoPaulo) || Contains(texto, Sp) then UfSp else UfDesconhecida,
      Riscos(texto))
  }

  /** Two texts that lowercase alike get the same response: the output depends on the lowercased text only. */
  lemma ResponseDependsOnlyOnLowered(lower: string -> string, t1: string, t2: string)
    requires lower(t1) == lower(t2)
    ensures InterpretaMatricula(lower, t1) == InterpretaMatricula(lower, t2)
  {
  }

  /**
   * When lowercasing is idempotent on the input, submitting the echoed
   * `matricula` again yields the very same response.
   */
  lemma ReinterpretingEchoIsStable(lower: string -> string, t: string)
    requires lower(lower(t)) == lower(t)
    ensures InterpretaMatricula(lower, InterpretaMatricula(lower, t).matricula) == InterpretaMatricula(lower, t)
  {
  }

  /**
   * The state test is a plain substring test: any word of the text that
   * contains "sp" makes the state "SP".
   */
  lemma UfSpForAnyWordContainingSp(lower: string -> string, t: string, w: string)
    requires Contains(lower(t), w) && Contains(w, Sp)
    ensures InterpretaMatricula(lower, t).uf == UfSp
  {
    ContainsTransitive(lower(t), w, Sp);
  }

  /** For instance, a registration mentioning "despesa" (expense) is read as being in São Paulo. */
  lemma DespesaReadsAsSaoPaulo(lower: string -> string, t: string)
    requires Contains(lower(t), "despesa")
    ensures InterpretaMatricula(lower, t).uf == UfSp
  {
    assert OccursAt("despesa", Sp, 2);
    ContainsIffOccurs("despesa", Sp);
    UfSpForAnyWordContainingSp(lower, t, "despesa");
  }
}
