/** The lifecycle engine: creation defaults, field-update rules, the status
    transition table, the close and delete guards and the statistics. Each
    operation takes the store (and any clock reading it makes) and returns
    its result together with the next store; an exception becomes a
    `Failure` and leaves the store as it was. */
module Service {
  import opened Wrappers
  import opened Enums
  import opened Text
  import opened Domain
  import opened Repository

  /** The business rule a `RegraDeNegocioException` reports; the two guards
      that name the current status carry its label. */
  datatype RegraViolada =
    | AtualizarFechada
    | EncerrarSemResolver(statusAtual: string)
    | RemoverSemAbrir(statusAtual: string)

  datatype Erro =
    | NaoEncontrada(id: int)                                   // SolicitacaoNaoEncontradaException
    | RegraDeNegocio(regra: RegraViolada)                      // RegraDeNegocioException
    | TransicaoInvalida(statusAtual: string, novoStatus: string) // TransicaoStatusInvalidaException

  /** The outcome of an engine operation and the store it leaves behind. */
  datatype Reply<T> = Reply(result: Result<T, Erro>, store: Store)

  /** A partial update: absent (null) fields are left alone. */
  datatype AtualizarSolicitacaoRequest = AtualizarSolicitacaoRequest(
    titulo: Option<string>, descricao: Option<string>, prioridade: Option<Prioridade>)

  datatype EstatisticasSuporte = EstatisticasSuporte(
    total: nat, abertas: nat, emAndamento: nat, resolvidas: nat, fechadas: nat)

  // ---------------------------------------------------------------------
  // The transition table
  // ---------------------------------------------------------------------

  /** The table as the service documents it: the allowed changes of status. */
  const Arestas: set<(StatusSolicitacao, StatusSolicitacao)> :=
    {(Aberta, EmAndamento), (Aberta, Fechada),
     (EmAndamento, Resolvida), (EmAndamento, Aberta),
     (Resolvida, Fechada), (Resolvida, EmAndamento)}

  /** The `switch` that decides a change of status: exactly the documented
      table, which never relates a status to itself and leaves FECHADA. */
  function TransicaoPermitida(atual: StatusSolicitacao, novo: StatusSolicitacao): (ok: bool)
    ensures ok <==> (atual, novo) in Arestas
    ensures ok ==> atual != novo && atual != Fechada
  {
    match atual
    case Aberta => novo == EmAndamento || novo == Fechada
    case EmAndamento => novo == Resolvida || novo == Aberta
    case Resolvida => novo == Fechada || novo == EmAndamento
    case Fechada => false
  }

  /** `validarTransicaoStatus`: a same-status request passes without looking
      at the table; otherwise the pair must be an edge, and a rejection
      carries both labels. */
  function ValidarTransicaoStatus(atual: StatusSolicitacao, novo: StatusSolicitacao): (r: Result<(), Erro>)
    ensures r.Success? <==> atual == novo || (atual, novo) in Arestas
    ensures r.Failure? ==> r.error == TransicaoInvalida(Descricao(atual), Descricao(novo))
  {
    if atual == novo then Success(())
    else if TransicaoPermitida(atual, novo) then Success(())
    else Failure(TransicaoInvalida(Descricao(atual), Descricao(novo)))
  }

  /** FECHADA is absorbing: the only status it accepts is itself. */
  lemma FechadaAbsorvente(novo: StatusSolicitacao)
    ensures ValidarTransicaoStatus(Fechada, novo).Success? <==> novo == Fechada
  {
  }

  /** The generic change to FECHADA and `encerrar` have different guards:
      the former is accepted from ABERTA, RESOLVIDA and FECHADA, the latter
      (see `Encerrar`) only from RESOLVIDA. */
  lemma DuasPortasParaFechada(atual: StatusSolicitacao)
    ensures ValidarTransicaoStatus(atual, Fechada).Success? <==>
              atual == Aberta || atual == Resolvida || atual == Fechada
  {
  }

  // ---------------------------------------------------------------------
  // Operations
  // ---------------------------------------------------------------------

  /** `criar`: builds an ABERTA request from the given fields with the two
      clock readings `t0`, `t1` and saves it, which allocates its id. */
  function Criar(s: Store, titulo: string, descricao: string, prioridade: Prioridade,
                 t0: nat, t1: nat): (r: Saved)
    ensures r.ticket.status == Aberta
    ensures r.ticket.titulo == titulo && r.ticket.descricao == descricao && r.ticket.prioridade == prioridade
    ensures r.ticket.dataCriacao == t0 && r.ticket.dataAtualizacao == t1
    ensures r.ticket.id == Some(s.idGenerator) && r.store.idGenerator == s.idGenerator + 1
    ensures r.store.database == s.database[s.idGenerator := r.ticket]
    ensures Valid(s) ==> s.idGenerator !in s.database && Valid(r.store)
                         && |r.store.database| == |s.database| + 1
  {
    Save(s, Nova(None, titulo, descricao, prioridade, t0, t1))
  }

  /** `buscarPorId`: the stored request, or not-found carrying the id. */
  function BuscarPorId(s: Store, id: int): (r: Result<SolicitacaoSuporte, Erro>)
    ensures r.Success? <==> id in s.database
    ensures r.Success? ==> r.value == s.database[id]
    ensures r.Failure? ==> r.error == NaoEncontrada(id)
  {
    match FindById(s, id)
    case Some(t) => Success(t)
    case None => Failure(NaoEncontrada(id))
  }

  /** `listarTodas`. */
  method ListarTodas(s: Store) returns (r: seq<SolicitacaoSuporte>)
    ensures IsListingOf(r, s.database) && |r| == |s.database|
  {
    r := FindAll(s);
  }

  /** `listarPorStatus`. */
  method ListarPorStatus(s: Store, status: StatusSolicitacao) returns (r: seq<SolicitacaoSuporte>)
    ensures IsListingOf(r, WithStatus(s.database, status))
    ensures |r| == |WithStatus(s.database, status)|
    ensures forall i :: 0 <= i < |r| ==> r[i].status == status
  {
    r := FindByStatus(s, status);
  }

  /** A text field of an update request counts only when present and not blank. */
  predicate Informado(campo: Option<string>)
  {
    campo.Some? && !IsBlank(campo.value)
  }

  /** The three field rules of `atualizar`, in the order it applies them: a
      present, non-blank text overwrites, a present priority overwrites, and
      nothing else (status, id, instants) moves. */
  function AplicarCampos(t: SolicitacaoSuporte, req: AtualizarSolicitacaoRequest): (r: SolicitacaoSuporte)
    ensures r.titulo == (if Informado(req.titulo) then req.titulo.value else t.titulo)
    ensures r.descricao == (if Informado(req.descricao) then req.descricao.value else t.descricao)
    ensures r.prioridade == (if req.prioridade.Some? then req.prioridade.value else t.prioridade)
    ensures r.id == t.id && r.status == t.status
    ensures r.dataCriacao == t.dataCriacao && r.dataAtualizacao == t.dataAtualizacao
  {
    var t1 := if Informado(req.titulo) then SetTitulo(t, req.titulo.value) else t;
    var t2 := if Informado(req.descricao) then SetDescricao(t1, req.descricao.value) else t1;
    if req.prioridade.Some? then SetPrioridade(t2, req.prioridade.value) else t2
  }

  /** `atualizar`: refused on a FECHADA request; otherwise a present,
      non-blank title or description and a present priority overwrite the
      stored ones, the status is kept and the modification instant becomes
      the clock reading `agora`. */
  function Atualizar(s: Store, id: int, req: AtualizarSolicitacaoRequest, agora: nat): (r: Reply<SolicitacaoSuporte>)
    requires Keyed(s.database)
    ensures id !in s.database ==> r == Reply(Failure(NaoEncontrada(id)), s)
    ensures id in s.database && s.database[id].status == Fechada ==>
              r == Reply(Failure(RegraDeNegocio(AtualizarFechada)), s)
    ensures r.result.Success? <==> id in s.database && s.database[id].status != Fechada
    ensures r.result.Success? ==>
              var antes := s.database[id];
              var t := r.result.value;
              && t.id == Some(id) && t.status == antes.status && t.dataCriacao == antes.dataCriacao
              && t.titulo == (if Informado(req.titulo) then req.titulo.value else antes.titulo)
              && t.descricao == (if Informado(req.descricao) then req.descricao.value else antes.descricao)
              && t.prioridade == (if req.prioridade.Some? then req.prioridade.value else antes.prioridade)
              && t.dataAtualizacao == agora
              && r.store == Store(s.database[id := t], s.idGenerator)
  {
    match BuscarPorId(s, id)
    case Failure(e) => Reply(Failure(e), s)
    case Success(atual) =>
      if atual.status == Fechada then Reply(Failure(RegraDeNegocio(AtualizarFechada)), s)
      else
        var saved := Update(s, AtualizarDataModificacao(AplicarCampos(atual, req), agora));
        Reply(Success(saved.ticket), saved.store)
  }

  /** `atualizarStatus`: accepted iff the status is unchanged or the pair is
      an edge of the table. An accepted request goes through `setStatus`,
      so even a same-status request refreshes the modification instant. */
  function AtualizarStatus(s: Store, id: int, novo: StatusSolicitacao, agora: nat): (r: Reply<SolicitacaoSuporte>)
    requires Keyed(s.database)
    ensures id !in s.database ==> r == Reply(Failure(NaoEncontrada(id)), s)
    ensures r.result.Success? <==>
              id in s.database && (s.database[id].status == novo || (s.database[id].status, novo) in Arestas)
    ensures r.result.Failure? ==> r.store == s
    ensures id in s.database && r.result.Failure? ==>
              r.result.error == TransicaoInvalida(Descricao(s.database[id].status), Descricao(novo))
    ensures r.result.Success? ==>
              var t := r.result.value;
              && t.status == novo && t.dataAtualizacao == agora
              && t.(status := s.database[id].status, dataAtualizacao := s.database[id].dataAtualizacao)
                 == s.database[id]
              && r.store == Store(s.database[id := t], s.idGenerator)
  {
    match BuscarPorId(s, id)
    case Failure(e) => Reply(Failure(e), s)
    case Success(atual) =>
      match ValidarTransicaoStatus(atual.status, novo)
      case Failure(e) => Reply(Failure(e), s)
      case Success(_) =>
        var saved := Update(s, SetStatus(atual, novo, agora));
        Reply(Success(saved.ticket), saved.store)
  }

  /** `encerrar`: only a RESOLVIDA request may be closed; any other status
      is refused with its label. */
  function Encerrar(s: Store, id: int, agora: nat): (r: Reply<SolicitacaoSuporte>)
    requires Keyed(s.database)
    ensures id !in s.database ==> r == Reply(Failure(NaoEncontrada(id)), s)
    ensures r.result.Success? <==> id in s.database && s.database[id].status == Resolvida
    ensures r.result.Failure? ==> r.store == s
    ensures id in s.database && r.result.Failure? ==>
              r.result.error == RegraDeNegocio(EncerrarSemResolver(Descricao(s.database[id].status)))
    ensures r.result.Success? ==>
              var t := r.result.value;
              && t.status == Fechada && t.dataAtualizacao == agora
              && t.(status := Resolvida, dataAtualizacao := s.database[id].dataAtualizacao) == s.database[id]
              && r.store == Store(s.database[id := t], s.idGenerator)
  {
    match BuscarPorId(s, id)
    case Failure(e) => Reply(Failure(e), s)
    case Success(atual) =>
      if atual.status != Resolvida then
        Reply(Failure(RegraDeNegocio(EncerrarSemResolver(Descricao(atual.status)))), s)
      else
        var saved := Update(s, SetStatus(atual, Fechada, agora));
        Reply(Success(saved.ticket), saved.store)
  }

  /** `remover`: only an ABERTA request may be deleted; otherwise it stays
      in the store and the refusal carries its label. The second lookup
      after `existsById` cannot fail when calls do not interleave. */
  function Remover(s: Store, id: int): (r: Reply<()>)
    ensures id !in s.database ==> r == Reply(Failure(NaoEncontrada(id)), s)
    ensures r.result.Success? <==> id in s.database && s.database[id].status == Aberta
    ensures r.result.Failure? ==> r.store == s
    ensures id in s.database && r.result.Failure? ==>
              r.result.error == RegraDeNegocio(RemoverSemAbrir(Descricao(s.database[id].status)))
    ensures r.result.Success? ==>
              r.store.database.Keys == s.database.Keys - {id} && r.store.idGenerator == s.idGenerator
              && forall k :: k in r.store.database ==> r.store.database[k] == s.database[k]
  {
    if !ExistsById(s, id) then Reply(Failure(NaoEncontrada(id)), s)
    else
      var atual := BuscarPorId(s, id).value;
      if atual.status != Aberta then
        Reply(Failure(RegraDeNegocio(RemoverSemAbrir(Descricao(atual.status)))), s)
      else
        Reply(Success(()), DeleteById(s, id))
  }

  // ---------------------------------------------------------------------
  // Statistics
  // ---------------------------------------------------------------------

  /** `stream().filter(s -> s.getStatus() == status).count()`. */
  function ContarStatus(ts: seq<SolicitacaoSuporte>, status: StatusSolicitacao): (n: nat)
    ensures n <= |ts|
    ensures n == 0 <==> forall i :: 0 <= i < |ts| ==> ts[i].status != status
  {
    if ts == [] then 0
    else ContarStatus(ts[..|ts| - 1], status) + (if ts[|ts| - 1].status == status then 1 else 0)
  }

  /** The keys of the requests that have `status`: the key set of the
      store's status class. */
  function ChavesCom(db: map<int, SolicitacaoSuporte>, status: StatusSolicitacao): set<int>
  {
    WithStatus(db, status).Keys
  }

  /** Removing one key takes it out of its own status class and leaves the
      other classes alone. */
  lemma ChavesComSemChave(db: map<int, SolicitacaoSuporte>, k: int, status: StatusSolicitacao)
    requires k in db
    ensures k !in ChavesCom(db - {k}, status)
    ensures ChavesCom(db, status) ==
              ChavesCom(db - {k}, status) + (if db[k].status == status then {k} else {})
  {
  }

  /** The same fact counted: removing a key shrinks its own class by one. */
  lemma ClasseSemChave(db: map<int, SolicitacaoSuporte>, k: int, status: StatusSolicitacao)
    requires k in db
    ensures |WithStatus(db, status)| ==
              |WithStatus(db - {k}, status)| + (if db[k].status == status then 1 else 0)
  {
    ChavesComSemChave(db, k, status);
    assert |ChavesCom(db, status)| ==
             |ChavesCom(db - {k}, status)| + (if db[k].status == status then 1 else 0);
  }

  lemma EmptyClasses(db: map<int, SolicitacaoSuporte>, status: StatusSolicitacao)
    requires db.Keys == {}
    ensures |ChavesCom(db, status)| == 0 && |db| == 0
  {
  }

  /** Counting a listing of `db` by status counts the entries of `db`. */
  lemma {:induction false} ContarListagem(r: seq<SolicitacaoSuporte>, db: map<int, SolicitacaoSuporte>,
                                           ks: seq<int>, status: StatusSolicitacao)
    requires ListedBy(r, db, ks)
    ensures ContarStatus(r, status) == |WithStatus(db, status)|
    decreases |r|
  {
    if r == [] {
      assert db.Keys == {} by {
        forall k | k in db
          ensures k in ks
        {
        }
      }
      EmptyClasses(db, status);
    } else {
      var n := |r| - 1;
      var last := ks[n];
      var menor := db - {last};
      ListingWithoutLast(r, db, ks);
      ContarListagem(r[..n], menor, ks[..n], status);
      ClasseSemChave(db, last, status);
    }
  }

  /** Every request has exactly one status, so the four classes partition
      the store. */
  lemma {:induction false} ParticaoPorStatus(db: map<int, SolicitacaoSuporte>)
    ensures |WithStatus(db, Aberta)| + |WithStatus(db, EmAndamento)|
            + |WithStatus(db, Resolvida)| + |WithStatus(db, Fechada)| == |db|
    decreases |db|
  {
    if db.Keys == {} {
      EmptyClasses(db, Aberta);
      EmptyClasses(db, EmAndamento);
      EmptyClasses(db, Resolvida);
      EmptyClasses(db, Fechada);
    } else {
      NonEmptyHasMember(db.Keys);
      var k :| k in db.Keys;
      var menor := db - {k};
      assert |menor| == |db| - 1;
      ParticaoPorStatus(menor);
      ClasseSemChave(db, k, Aberta);
      ClasseSemChave(db, k, EmAndamento);
      ClasseSemChave(db, k, Resolvida);
      ClasseSemChave(db, k, Fechada);
    }
  }

  /** `obterEstatisticas`: the number of stored requests and, per status,
      the number of stored requests in it; the four counts add up to the
      total, so an empty store gives all zeros. */
  method ObterEstatisticas(s: Store) returns (e: EstatisticasSuporte)
    ensures e.total == |s.database|
    ensures e.abertas == |WithStatus(s.database, Aberta)|
    ensures e.emAndamento == |WithStatus(s.database, EmAndamento)|
    ensures e.resolvidas == |WithStatus(s.database, Resolvida)|
    ensures e.fechadas == |WithStatus(s.database, Fechada)|
    ensures e.abertas + e.emAndamento + e.resolvidas + e.fechadas == e.total
  {
    var todas := FindAll(s);
    ghost var ks :| ListedBy(todas, s.database, ks);
    ContarListagem(todas, s.database, ks, Aberta);
    ContarListagem(todas, s.database, ks, EmAndamento);
    ContarListagem(todas, s.database, ks, Resolvida);
    ContarListagem(todas, s.database, ks, Fechada);
    ParticaoPorStatus(s.database);
    e := EstatisticasSuporte(|todas|,
                             ContarStatus(todas, Aberta), ContarStatus(todas, EmAndamento),
                             ContarStatus(todas, Resolvida), ContarStatus(todas, Fechada));
  }

  /** The statistic reported for one status. */
  function Contagem(e: EstatisticasSuporte, status: StatusSolicitacao): nat
  {
    match status
    case Aberta => e.abertas
    case EmAndamento => e.emAndamento
    case Resolvida => e.resolvidas
    case Fechada => e.fechadas
  }

  /** `listarPorStatus` and `obterEstatisticas` agree: on the same store, the
      listing for a status is as long as the count reported for it. */
  method ListagemConfereComEstatisticas(s: Store, status: StatusSolicitacao)
    returns (r: seq<SolicitacaoSuporte>, e: EstatisticasSuporte)
    ensures IsListingOf(r, WithStatus(s.database, status))
    ensures |r| == Contagem(e, status) && e.total == |s.database|
  {
    r := ListarPorStatus(s, status);
    e := ObterEstatisticas(s);
  }
}
