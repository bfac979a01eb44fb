/** The two enumerations of the domain: the lifecycle status of a support
    request, with the display label used in error messages, and its
    (purely informational) priority. */
module Enums {

  datatype StatusSolicitacao = Aberta | EmAndamento | Resolvida | Fechada

  /** Priority carries no business rule; its labels are never used in logic. */
  datatype Prioridade = Baixa | Media | Alta | Critica

  /** `getDescricao`: the label shown to users and carried by errors. */
  function Descricao(s: StatusSolicitacao): (name: string)
    ensures name == "Aberta" <==> s == Aberta
    ensures name == "Em Andamento" <==> s == EmAndamento
    ensures name == "Resolvida" <==> s == Resolvida
    ensures name == "Fechada" <==> s == Fechada
  {
    match s
    case Aberta => "Aberta"
    case EmAndamento => "Em Andamento"
    case Resolvida => "Resolvida"
    case Fechada => "Fechada"
  }

  /** The enumeration has exactly four constants. */
  lemma ExactlyFourStatuses(s: StatusSolicitacao)
    ensures s == Aberta || s == EmAndamento || s == Resolvida || s == Fechada
  {
  }

  lemma LabelsOfOpenStatuses()
    ensures Descricao(Aberta) == "Aberta"
    ensures Descricao(EmAndamento) == "Em Andamento"
  {
  }

  lemma LabelsOfFinishedStatuses()
    ensures Descricao(Resolvida) == "Resolvida"
    ensures Descricao(Fechada) == "Fechada"
  {
  }

  /** Distinct statuses have distinct labels, so the labels carried by an
      error identify the statuses involved. */
  lemma DescricaoInjective(a: StatusSolicitacao, b: StatusSolicitacao)
    ensures Descricao(a) == Descricao(b) ==> a == b
  {
  }
}
