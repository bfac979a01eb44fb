/** Properties of the engine over whole runs: any sequence of the five
    mutating operations, each with its clock readings, applied to a store. */
module Lifecycle {
  import opened Wrappers
  import opened Enums
  import opened Domain
  import opened Repository
  import opened Service

  /** One call of a mutating engine operation, with the clock readings it makes. */
  datatype Comando =
    | Cria(titulo: string, descricao: string, prioridade: Prioridade, t0: nat, t1: nat)
    | Atualiza(id: int, req: AtualizarSolicitacaoRequest, agora: nat)
    | MudaStatus(id: int, novo: StatusSolicitacao, agora: nat)
    | Encerra(id: int, agora: nat)
    | Remove(id: int)

  /** The store after the call, whether it succeeded or failed. */
  function Executar(s: Store, c: Comando): (r: Store)
    requires Keyed(s.database)
    ensures Keyed(r.database)
    ensures Valid(s) ==> Valid(r)
  {
    match c
    case Cria(titulo, descricao, prioridade, t0, t1) => Criar(s, titulo, descricao, prioridade, t0, t1).store
    case Atualiza(id, req, agora) => Atualizar(s, id, req, agora).store
    case MudaStatus(id, novo, agora) => AtualizarStatus(s, id, novo, agora).store
    case Encerra(id, agora) => Encerrar(s, id, agora).store
    case Remove(id) => Remover(s, id).store
  }

  function Executa(s: Store, cs: seq<Comando>): (r: Store)
    requires Keyed(s.database)
    ensures Keyed(r.database)
    decreases |cs|
  {
    if cs == [] then s else Executa(Executar(s, cs[0]), cs[1..])
  }

  /** Every run keeps the store invariant: entries keyed by their own id, all
      ids below the counter. */
  lemma {:induction false} InvariantePreservado(s: Store, cs: seq<Comando>)
    requires Valid(s)
    ensures Valid(Executa(s, cs))
    decreases |cs|
  {
    if cs != [] {
      InvariantePreservado(Executar(s, cs[0]), cs[1..]);
    }
  }

  // ---------------------------------------------------------------------
  // Id allocation by the engine
  // ---------------------------------------------------------------------

  /** Only `criar` draws from the counter, by exactly one; every other call,
      accepted or refused, leaves it alone. */
  lemma ExecutarContador(s: Store, c: Comando)
    requires Keyed(s.database)
    ensures Executar(s, c).idGenerator == if c.Cria? then s.idGenerator + 1 else s.idGenerator
  {
  }

  /** The ids `criar` hands out during a run, in order. */
  function Alocados(s: Store, cs: seq<Comando>): seq<int>
    requires Keyed(s.database)
    decreases |cs|
  {
    if cs == [] then []
    else (if cs[0].Cria? then [s.idGenerator as int] else []) + Alocados(Executar(s, cs[0]), cs[1..])
  }

  /** Over any run from a valid store, the ids `criar` hands out strictly
      increase, lie between the starting and final counter, and none of them
      is a key of the starting store. */
  lemma {:induction false} AlocacaoCrescente(s: Store, cs: seq<Comando>)
    requires Valid(s)
    ensures Executa(s, cs).idGenerator >= s.idGenerator
    ensures Increasing(Alocados(s, cs))
    ensures Within(Alocados(s, cs), s.idGenerator, Executa(s, cs).idGenerator)
    ensures forall i :: 0 <= i < |Alocados(s, cs)| ==> Alocados(s, cs)[i] !in s.database
    decreases |cs|
  {
    if cs != [] {
      var next := Executar(s, cs[0]);
      ExecutarContador(s, cs[0]);
      AlocacaoCrescente(next, cs[1..]);
      var rest := Alocados(next, cs[1..]);
      assert Executa(s, cs) == Executa(next, cs[1..]);
      if cs[0].Cria? {
        assert Alocados(s, cs) == [s.idGenerator as int] + rest;
        PrependSmaller(s.idGenerator, rest, Executa(s, cs).idGenerator);
      } else {
        assert Alocados(s, cs) == rest;
      }
    }
  }

  /** An id that is in the store after one run, whether the next run deletes
      it or not, is never handed out by a `criar` of the next run. */
  lemma IdRemovidoNuncaVolta(s: Store, antes: seq<Comando>, depois: seq<Comando>, k: int)
    requires Valid(s)
    requires k in Executa(s, antes).database
    ensures k !in Alocados(Executa(s, antes), depois)
  {
    InvariantePreservado(s, antes);
    AlocacaoCrescente(Executa(s, antes), depois);
  }

  // ---------------------------------------------------------------------
  // FECHADA is terminal
  // ---------------------------------------------------------------------

  /** `depois` is the closed request `antes` with, at most, a newer
      modification instant. */
  predicate Congelada(depois: SolicitacaoSuporte, antes: SolicitacaoSuporte)
  {
    && depois.status == Fechada
    && depois.id == antes.id && depois.titulo == antes.titulo && depois.descricao == antes.descricao
    && depois.prioridade == antes.prioridade && depois.dataCriacao == antes.dataCriacao
  }

  lemma FechadaPermanecePasso(s: Store, c: Comando, k: int)
    requires Valid(s) && k in s.database && s.database[k].status == Fechada
    ensures k in Executar(s, c).database
    ensures Congelada(Executar(s, c).database[k], s.database[k])
  {
    match c
    case Cria(_, _, _, _, _) =>
    case Atualiza(_, _, _) =>
    case MudaStatus(_, _, _) =>
    case Encerra(_, _) =>
    case Remove(_) =>
  }

  /** Once closed, a request stays in the store and closed for good, with its
      content untouched: it cannot be updated, reopened, closed again or
      removed. Only its modification instant may move (see
      `MesmoStatusAtualizaData`). */
  lemma {:induction false} FechadaPermanece(s: Store, cs: seq<Comando>, k: int)
    requires Valid(s) && k in s.database && s.database[k].status == Fechada
    ensures k in Executa(s, cs).database
    ensures Congelada(Executa(s, cs).database[k], s.database[k])
    decreases |cs|
  {
    if cs != [] {
      var next := Executar(s, cs[0]);
      FechadaPermanecePasso(s, cs[0], k);
      FechadaPermanece(next, cs[1..], k);
    }
  }

  /** A same-status `atualizarStatus` is accepted, even on a closed request,
      and still moves the modification instant: it is not a no-op. */
  lemma MesmoStatusAtualizaData(s: Store, id: int, agora: nat)
    requires Keyed(s.database) && id in s.database
    ensures var r := AtualizarStatus(s, id, s.database[id].status, agora);
            && r.result.Success? && r.result.value.dataAtualizacao == agora
            && (agora != s.database[id].dataAtualizacao ==> r.store != s)
  {
  }

  // ---------------------------------------------------------------------
  // Timestamps
  // ---------------------------------------------------------------------

  /** The clock readings a call makes, in order. */
  function Leituras(c: Comando): seq<nat>
  {
    match c
    case Cria(_, _, _, t0, t1) => [t0, t1]
    case Atualiza(_, _, agora) => [agora]
    case MudaStatus(_, _, agora) => [agora]
    case Encerra(_, agora) => [agora]
    case Remove(_) => []
  }

  /** A monotone clock: the readings of `c` never go back and none is
      earlier than `ultima`, the last reading before the call. */
  predicate LeiturasDepois(ultima: nat, c: Comando)
  {
    var ts := Leituras(c);
    forall i :: 0 <= i < |ts| ==> ultima <= ts[i] && (i > 0 ==> ts[i - 1] <= ts[i])
  }

  function UltimaLeitura(ultima: nat, c: Comando): nat
  {
    var ts := Leituras(c);
    if ts == [] then ultima else ts[|ts| - 1]
  }

  predicate RelogioMonotono(ultima: nat, cs: seq<Comando>)
    decreases |cs|
  {
    cs == [] || (LeiturasDepois(ultima, cs[0]) && RelogioMonotono(UltimaLeitura(ultima, cs[0]), cs[1..]))
  }

  function UltimaDaExecucao(ultima: nat, cs: seq<Comando>): nat
    decreases |cs|
  {
    if cs == [] then ultima else UltimaDaExecucao(UltimaLeitura(ultima, cs[0]), cs[1..])
  }

  /** Every stored request was created no later than it was last modified,
      and both instants are no later than the clock reading `ultima`. */
  predicate Carimbada(s: Store, ultima: nat)
  {
    forall k :: k in s.database ==>
      TimesOrdered(s.database[k]) && s.database[k].dataAtualizacao <= ultima
  }

  lemma CarimbadaPasso(s: Store, c: Comando, ultima: nat)
    requires Keyed(s.database) && Carimbada(s, ultima) && LeiturasDepois(ultima, c)
    ensures Carimbada(Executar(s, c), UltimaLeitura(ultima, c))
  {
    match c
    case Cria(_, _, _, t0, t1) =>
      assert Leituras(c)[0] == t0 && Leituras(c)[1] == t1;
      assert t0 <= t1 && ultima <= t0;
    case Atualiza(_, _, agora) =>
      assert Leituras(c)[0] == agora;
    case MudaStatus(_, _, agora) =>
      assert Leituras(c)[0] == agora;
    case Encerra(_, agora) =>
      assert Leituras(c)[0] == agora;
    case Remove(_) =>
  }

  /** With a monotone clock, `dataCriacao <= dataAtualizacao` holds of every
      stored request after any run. Creation only promises `<=`: it reads the
      clock twice. */
  lemma {:induction false} DatasOrdenadas(s: Store, cs: seq<Comando>, ultima: nat)
    requires Keyed(s.database) && Carimbada(s, ultima) && RelogioMonotono(ultima, cs)
    ensures Carimbada(Executa(s, cs), UltimaDaExecucao(ultima, cs))
    ensures forall k :: k in Executa(s, cs).database ==> TimesOrdered(Executa(s, cs).database[k])
    decreases |cs|
  {
    if cs != [] {
      CarimbadaPasso(s, cs[0], ultima);
      DatasOrdenadas(Executar(s, cs[0]), cs[1..], UltimaLeitura(ultima, cs[0]));
    }
  }

  // ---------------------------------------------------------------------
  // Field updates
  // ---------------------------------------------------------------------

  /** Repeating an accepted `atualizar` changes nothing but the
      modification instant. */
  lemma AtualizarIdempotente(s: Store, id: int, req: AtualizarSolicitacaoRequest, t1: nat, t2: nat)
    requires Keyed(s.database)
    requires Atualizar(s, id, req, t1).result.Success?
    ensures var r1 := Atualizar(s, id, req, t1);
            Keyed(r1.store.database)
            && var r2 := Atualizar(r1.store, id, req, t2);
            r2.result.Success? && r2.result.value == r1.result.value.(dataAtualizacao := t2)
  {
  }

  /** An update carrying only a priority changes the priority and the
      modification instant and nothing else. */
  lemma SoPrioridade(s: Store, id: int, p: Prioridade, agora: nat)
    requires Keyed(s.database) && id in s.database && s.database[id].status != Fechada
    ensures var r := Atualizar(s, id, AtualizarSolicitacaoRequest(None, None, Some(p)), agora);
            r.result.Success?
            && r.result.value == s.database[id].(prioridade := p, dataAtualizacao := agora)
  {
  }

  // ---------------------------------------------------------------------
  // A full lifecycle
  // ---------------------------------------------------------------------

  /** Create, start, resolve and close a request; removing it afterwards is
      refused with the label of its closed status. Looking up an id that
      was never allocated fails with that id. */
  lemma CicloCompleto()
    ensures var c := Criar(Empty(), "Slow system", "System is slow after update", Alta, 1, 1);
            && c.ticket.id == Some(1) && c.ticket.status == Aberta
            && var s1 := AtualizarStatus(c.store, 1, EmAndamento, 2);
            && s1.result.Success?
            && var s2 := AtualizarStatus(s1.store, 1, Resolvida, 3);
            && s2.result.Success?
            && var s3 := Encerrar(s2.store, 1, 4);
            && s3.result.Success? && s3.result.value.status == Fechada
            && Remover(s3.store, 1).result == Failure(RegraDeNegocio(RemoverSemAbrir("Fechada")))
            && BuscarPorId(s3.store, 999) == Failure(NaoEncontrada(999))
  {
  }
}
