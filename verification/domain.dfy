/** The support request entity. Java mutates it in place through setters; here
    every setter returns the updated value. Clock readings
    (`LocalDateTime.now()`) are natural numbers passed in by the caller. */
module Domain {
  import opened Wrappers
  import opened Enums

  datatype SolicitacaoSuporte = SolicitacaoSuporte(
    id: Option<int>,              // null until the store assigns one
    titulo: string,
    descricao: string,
    status: StatusSolicitacao,
    prioridade: Prioridade,
    dataCriacao: nat,
    dataAtualizacao: nat)

  /** The creation instant never lies after the last modification instant. */
  predicate TimesOrdered(t: SolicitacaoSuporte)
  {
    t.dataCriacao <= t.dataAtualizacao
  }

  /** The four-argument constructor, which first runs the no-argument one:
      `t0` and `t1` are the two successive clock readings that become
      `dataCriacao` and `dataAtualizacao`, and the status defaults to ABERTA. */
  function Nova(id: Option<int>, titulo: string, descricao: string, prioridade: Prioridade,
                t0: nat, t1: nat): (t: SolicitacaoSuporte)
    ensures t.status == Aberta
    ensures t.id == id && t.titulo == titulo && t.descricao == descricao && t.prioridade == prioridade
    ensures t.dataCriacao == t0 && t.dataAtualizacao == t1
    ensures t0 <= t1 <==> TimesOrdered(t)
  {
    SolicitacaoSuporte(id, titulo, descricao, Aberta, prioridade, t0, t1)
  }

  function SetId(t: SolicitacaoSuporte, id: Option<int>): (r: SolicitacaoSuporte)
    ensures r.id == id
    ensures r.(id := t.id) == t
  {
    t.(id := id)
  }

  function SetTitulo(t: SolicitacaoSuporte, titulo: string): (r: SolicitacaoSuporte)
    ensures r.titulo == titulo
    ensures r.(titulo := t.titulo) == t
  {
    t.(titulo := titulo)
  }

  function SetDescricao(t: SolicitacaoSuporte, descricao: string): (r: SolicitacaoSuporte)
    ensures r.descricao == descricao
    ensures r.(descricao := t.descricao) == t
  {
    t.(descricao := descricao)
  }

  function SetPrioridade(t: SolicitacaoSuporte, prioridade: Prioridade): (r: SolicitacaoSuporte)
    ensures r.prioridade == prioridade
    ensures r.(prioridade := t.prioridade) == t
  {
    t.(prioridade := prioridade)
  }

  /** `setStatus` also reads the clock: the status change refreshes the
      modification instant, even when the status is unchanged. */
  function SetStatus(t: SolicitacaoSuporte, status: StatusSolicitacao, agora: nat): (r: SolicitacaoSuporte)
    ensures r.status == status && r.dataAtualizacao == agora
    ensures r.(status := t.status, dataAtualizacao := t.dataAtualizacao) == t
    ensures t.dataCriacao <= agora ==> TimesOrdered(r)
  {
    t.(status := status, dataAtualizacao := agora)
  }

  /** `atualizarDataModificacao`: only the modification instant changes. */
  function AtualizarDataModificacao(t: SolicitacaoSuporte, agora: nat): (r: SolicitacaoSuporte)
    ensures r.dataAtualizacao == agora
    ensures r.(dataAtualizacao := t.dataAtualizacao) == t
    ensures t.dataCriacao <= agora ==> TimesOrdered(r)
  {
    t.(dataAtualizacao := agora)
  }
}
