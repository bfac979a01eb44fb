# Support-request lifecycle: a Dafny model

This project models the core of a small support-ticket service. It covers the lifecycle engine
(`SolicitacaoSuporteService`), the in-memory store it runs on (`SolicitacaoSuporteRepository`),
the support-request entity (`SolicitacaoSuporte`) and the status enumeration (`StatusSolicitacao`).

A support request ("solicitação") has:

- an id, assigned by the store from a counter that starts at 1;
- a title, a description and a priority;
- a status: ABERTA, EM_ANDAMENTO, RESOLVIDA or FECHADA;
- a creation instant and a modification instant.

The engine enforces these rules:

- a transition table governs status changes;
- a FECHADA request cannot be edited;
- only a RESOLVIDA request can be closed (`encerrar`);
- only an ABERTA request can be removed.

It also computes per-status statistics.

The model is functional. A store is a value: a map from id to request, plus the id counter.
Every engine operation takes a store and returns its result with the next store. A Java exception
becomes a `Failure` variant, and the store is left unchanged. The variant carries the id or the
status labels where the Java message names them. The refusal to edit a FECHADA request carries
neither, because its message names no status. `LocalDateTime.now()` becomes a natural-number
clock reading passed in by the caller. Creation reads the clock twice (`t0` and `t1`).

Modules:

- `Wrappers`: `Option` and `Result`.
- `Enums`: the status and priority enumerations, and the status labels.
- `Text`: `String.isBlank`, over an explicit set of white-space characters.
- `Domain`: the entity, its constructors and setters.
- `Repository`: the store operations, the listings and id allocation over any sequence of store
  operations.
- `Service`: the engine operations, the transition table and the statistics.
- `Lifecycle`: properties of whole runs of engine operations.

Two behaviours of the code are easy to miss:

- A same-status `atualizarStatus` passes validation without consulting the table. It still calls
  `setStatus`, which refreshes the modification instant, so it is not a pure no-op
  (`Lifecycle.MesmoStatusAtualizaData`). The controller's API description lists no transition out
  of FECHADA, yet this same-status call on a FECHADA request is accepted.
- Creation reads the clock twice. With a monotone clock this gives only
  `dataCriacao <= dataAtualizacao`, not equality (`Domain.Nova`, `Lifecycle.DatasOrdenadas`).

## Model

| member | source | states |
|---|---|---|
| Enums.ExactlyFourStatuses | src/main/java/br/com/fiap/byteshoponlineapp/domain/enums/StatusSolicitacao.java:7-10 | every status is one of the four constants ABERTA, EM_ANDAMENTO, RESOLVIDA, FECHADA |
| Enums.LabelsOfOpenStatuses | src/main/java/br/com/fiap/byteshoponlineapp/domain/enums/StatusSolicitacao.java:7-8 | the labels of ABERTA and EM_ANDAMENTO are "Aberta" and "Em Andamento" |
| Enums.LabelsOfFinishedStatuses | src/main/java/br/com/fiap/byteshoponlineapp/domain/enums/StatusSolicitacao.java:9-10 | the labels of RESOLVIDA and FECHADA are "Resolvida" and "Fechada" |
| Enums.Descricao | src/main/java/br/com/fiap/byteshoponlineapp/domain/enums/StatusSolicitacao.java:7-20 | each status's label is exactly its own: "Aberta", "Em Andamento", "Resolvida", "Fechada", and a label names that status and no other |
| Text.IsBlank | src/main/java/br/com/fiap/byteshoponlineapp/service/SolicitacaoSuporteService.java:75-81 | a string is blank exactly when every character is white space, so the empty string is blank |
| Enums.DescricaoInjective | src/main/java/br/com/fiap/byteshoponlineapp/domain/enums/StatusSolicitacao.java:7-20 | distinct statuses have distinct labels, so the labels in an error identify the statuses |
| Domain.Nova | src/main/java/br/com/fiap/byteshoponlineapp/domain/SolicitacaoSuporte.java:21-33 | a new request is ABERTA and holds the given id, title, description and priority; its two instants are the two clock readings, ordered exactly when the readings are |
| Domain.SetId | src/main/java/br/com/fiap/byteshoponlineapp/domain/SolicitacaoSuporte.java:40-42 | sets the id and changes no other field |
| Domain.SetTitulo | src/main/java/br/com/fiap/byteshoponlineapp/domain/SolicitacaoSuporte.java:48-50 | sets the title and changes no other field, timestamps included |
| Domain.SetDescricao | src/main/java/br/com/fiap/byteshoponlineapp/domain/SolicitacaoSuporte.java:56-58 | sets the description and changes no other field, timestamps included |
| Domain.SetStatus | src/main/java/br/com/fiap/byteshoponlineapp/domain/SolicitacaoSuporte.java:64-67 | sets the status and refreshes the modification instant to the clock reading; nothing else changes; the instants stay ordered when the reading is not before creation |
| Domain.SetPrioridade | src/main/java/br/com/fiap/byteshoponlineapp/domain/SolicitacaoSuporte.java:73-75 | sets the priority and changes no other field, timestamps included |
| Domain.AtualizarDataModificacao | src/main/java/br/com/fiap/byteshoponlineapp/domain/SolicitacaoSuporte.java:93-95 | changes only the modification instant; the instants stay ordered when the reading is not before creation |
| Repository.Empty | src/main/java/br/com/fiap/byteshoponlineapp/domain/repository/SolicitacaoSuporteRepository.java:23-24 | the initial store is empty, its counter is 1 and it satisfies the store invariant |
| Repository.Save | src/main/java/br/com/fiap/byteshoponlineapp/domain/repository/SolicitacaoSuporteRepository.java:29-35 | an id-less request gets the counter's value and the counter advances by one; a request with an id keeps it and the counter stays; the entry at that id is overwritten; a first save into a valid store uses a fresh id, keeps the invariant and adds one entry |
| Repository.FindById | src/main/java/br/com/fiap/byteshoponlineapp/domain/repository/SolicitacaoSuporteRepository.java:40-42 | returns the entry exactly when the key is present, otherwise empty; never fails |
| Repository.FindAll | src/main/java/br/com/fiap/byteshoponlineapp/domain/repository/SolicitacaoSuporteRepository.java:47-49 | the result is a permutation of the stored entries: each entry listed exactly once, in an unspecified order |
| Repository.FindByStatus | src/main/java/br/com/fiap/byteshoponlineapp/domain/repository/SolicitacaoSuporteRepository.java:54-58 | the result lists, each exactly once, exactly the stored entries with the given status |
| Repository.Update | src/main/java/br/com/fiap/byteshoponlineapp/domain/repository/SolicitacaoSuporteRepository.java:63-66 | writes the request at its own id without checking presence; every other key and the counter are unchanged |
| Repository.DeleteById | src/main/java/br/com/fiap/byteshoponlineapp/domain/repository/SolicitacaoSuporteRepository.java:71-73 | removes that key only, leaves the counter alone and is a no-op for an absent key |
| Repository.DeleteAll | src/main/java/br/com/fiap/byteshoponlineapp/domain/repository/SolicitacaoSuporteRepository.java:92-94 | empties the map but keeps the counter, so the store invariant survives |
| Repository.ExistsById | src/main/java/br/com/fiap/byteshoponlineapp/domain/repository/SolicitacaoSuporteRepository.java:78-80 | holds exactly when the id is a key of the store |
| Repository.Count | src/main/java/br/com/fiap/byteshoponlineapp/domain/repository/SolicitacaoSuporteRepository.java:85-87 | the number of stored entries, which is the number of distinct keys |
| Repository.ExistsAndCountAgreeWithFind | src/main/java/br/com/fiap/byteshoponlineapp/domain/repository/SolicitacaoSuporteRepository.java:78-87 | `existsById` holds exactly when `findById` finds the key; `count` grows by one on a first save, shrinks by one on deleting a present key, and is unchanged on deleting an absent one |
| Repository.FindAfterSaveAndDelete | src/main/java/br/com/fiap/byteshoponlineapp/domain/repository/SolicitacaoSuporteRepository.java:29-73 | a saved request is found again under its id; a deleted key is not found; every other key is found as before |
| Repository.ApplyCounter | src/main/java/br/com/fiap/byteshoponlineapp/domain/repository/SolicitacaoSuporteRepository.java:29-94 | among the store operations, only saving an id-less request moves the counter, and it moves it by exactly one |
| Repository.IdsNeverReused | src/main/java/br/com/fiap/byteshoponlineapp/domain/repository/SolicitacaoSuporteRepository.java:24-94 | over any sequence of saves, updates, deletes and clears, the counter never goes back, and the allocated ids strictly increase and lie between the starting and final counter, so ids allocated by the counter are never handed out twice |
| Service.TransicaoPermitida | src/main/java/br/com/fiap/byteshoponlineapp/service/SolicitacaoSuporteService.java:156-164 | the `switch` allows exactly the six edges ABERTA to EM_ANDAMENTO or FECHADA, EM_ANDAMENTO to RESOLVIDA or ABERTA, RESOLVIDA to FECHADA or EM_ANDAMENTO; no edge leaves FECHADA or keeps a status |
| Service.ValidarTransicaoStatus | src/main/java/br/com/fiap/byteshoponlineapp/service/SolicitacaoSuporteService.java:151-172 | passes exactly when the status is unchanged or the pair is a table edge; a rejection carries the current and requested labels |
| Service.FechadaAbsorvente | src/main/java/br/com/fiap/byteshoponlineapp/service/SolicitacaoSuporteService.java:151-164 | from FECHADA the only accepted target is FECHADA |
| Service.DuasPortasParaFechada | src/main/java/br/com/fiap/byteshoponlineapp/service/SolicitacaoSuporteService.java:151-164 | the generic change to FECHADA is accepted from ABERTA, RESOLVIDA and FECHADA, and from no other status |
| Service.Criar | src/main/java/br/com/fiap/byteshoponlineapp/service/SolicitacaoSuporteService.java:31-40 | stores an ABERTA request with the given fields under the counter's value and advances the counter; in a valid store the id is fresh, the store stays valid and grows by one |
| Service.BuscarPorId | src/main/java/br/com/fiap/byteshoponlineapp/service/SolicitacaoSuporteService.java:45-48 | returns the stored request exactly when the id is present, otherwise not-found carrying that id |
| Service.ListarTodas | src/main/java/br/com/fiap/byteshoponlineapp/service/SolicitacaoSuporteService.java:53-55 | lists every stored request exactly once |
| Service.ListarPorStatus | src/main/java/br/com/fiap/byteshoponlineapp/service/SolicitacaoSuporteService.java:60-62 | lists exactly the stored requests with the given status, each once, so its length is the size of that status class, the same number the statistics report for it |
| Service.AplicarCampos | src/main/java/br/com/fiap/byteshoponlineapp/service/SolicitacaoSuporteService.java:75-85 | a present non-blank title or description and a present priority overwrite the request's own; an absent or blank one leaves it; id, status and both instants are untouched |
| Service.Atualizar | src/main/java/br/com/fiap/byteshoponlineapp/service/SolicitacaoSuporteService.java:67-89 | absent id gives not-found and a FECHADA request gives a business-rule error, both leaving the store unchanged; otherwise a present non-blank title or description and a present priority overwrite, absent or blank ones do not, the status and creation instant stay, the modification instant becomes the reading, and only that entry changes |
| Service.AtualizarStatus | src/main/java/br/com/fiap/byteshoponlineapp/service/SolicitacaoSuporteService.java:94-103 | succeeds exactly when the id is present and the target equals the current status or is a table edge from it; success sets the status and refreshes the modification instant even for the same status; a rejection carries both labels and leaves the store unchanged |
| Service.Encerrar | src/main/java/br/com/fiap/byteshoponlineapp/service/SolicitacaoSuporteService.java:108-121 | succeeds exactly when the request is present and RESOLVIDA, leaving it FECHADA with a refreshed instant; otherwise not-found, or a business-rule error carrying the current label, with the store unchanged |
| Service.Remover | src/main/java/br/com/fiap/byteshoponlineapp/service/SolicitacaoSuporteService.java:126-141 | deletes exactly when the request is present and ABERTA, touching no other entry and not the counter; otherwise not-found, or a business-rule error carrying the current label with the request still stored |
| Service.ContarStatus | src/main/java/br/com/fiap/byteshoponlineapp/service/SolicitacaoSuporteService.java:180-183 | the filtered count never exceeds the list length and is zero exactly when no element has the status |
| Service.ContarListagem | src/main/java/br/com/fiap/byteshoponlineapp/service/SolicitacaoSuporteService.java:178-183 | counting a listing of the store by status gives the number of stored requests with that status, whatever the listing order |
| Service.ParticaoPorStatus | src/main/java/br/com/fiap/byteshoponlineapp/service/SolicitacaoSuporteService.java:180-185 | the four per-status counts of a store add up to its size |
| Service.ObterEstatisticas | src/main/java/br/com/fiap/byteshoponlineapp/service/SolicitacaoSuporteService.java:177-186 | the total is the number of stored requests, each per-status count is the number of stored requests in that status, and the four counts sum to the total, so an empty store gives all zeros |
| Service.ListagemConfereComEstatisticas | src/main/java/br/com/fiap/byteshoponlineapp/service/SolicitacaoSuporteService.java:177-186 | on the same store, the `listarPorStatus` listing for a status is as long as the statistic reported for that status, and the total is the store's size |
| Lifecycle.Executar | src/main/java/br/com/fiap/byteshoponlineapp/service/SolicitacaoSuporteService.java:31-141 | each mutating engine operation, accepted or refused, keeps the entries keyed by their ids and keeps the store invariant |
| Lifecycle.InvariantePreservado | src/main/java/br/com/fiap/byteshoponlineapp/service/SolicitacaoSuporteService.java:31-141 | every run of engine operations from a valid store ends in a valid store |
| Lifecycle.AlocacaoCrescente | src/main/java/br/com/fiap/byteshoponlineapp/service/SolicitacaoSuporteService.java:31-40 | over any run of engine operations from a valid store, the ids `criar` hands out strictly increase, lie between the starting and final counter, and none of them is already stored |
| Lifecycle.IdRemovidoNuncaVolta | src/main/java/br/com/fiap/byteshoponlineapp/service/SolicitacaoSuporteService.java:31-141 | an id stored after one run is never handed out by a `criar` of any following run, even after `remover` deletes it |
| Lifecycle.FechadaPermanecePasso | src/main/java/br/com/fiap/byteshoponlineapp/service/SolicitacaoSuporteService.java:67-141 | no single engine operation removes, reopens or edits a FECHADA request |
| Lifecycle.FechadaPermanece | src/main/java/br/com/fiap/byteshoponlineapp/service/SolicitacaoSuporteService.java:67-172 | after any run, a request that was FECHADA is still stored and FECHADA, with unchanged id, content and creation instant |
| Lifecycle.MesmoStatusAtualizaData | src/main/java/br/com/fiap/byteshoponlineapp/service/SolicitacaoSuporteService.java:94-103 | a same-status change is accepted from any status, FECHADA included, and sets the modification instant, so it changes the store whenever the clock has moved |
| Lifecycle.CarimbadaPasso | src/main/java/br/com/fiap/byteshoponlineapp/domain/SolicitacaoSuporte.java:21-95 | with monotone clock readings, one engine operation keeps every request's creation no later than its last modification, and both no later than the last reading |
| Lifecycle.DatasOrdenadas | src/main/java/br/com/fiap/byteshoponlineapp/domain/SolicitacaoSuporte.java:21-95 | with a monotone clock, every stored request has creation no later than modification after any run |
| Lifecycle.AtualizarIdempotente | src/main/java/br/com/fiap/byteshoponlineapp/service/SolicitacaoSuporteService.java:75-88 | repeating an accepted update changes nothing but the modification instant |
| Lifecycle.SoPrioridade | src/main/java/br/com/fiap/byteshoponlineapp/service/SolicitacaoSuporteService.java:83-87 | an update with only a priority changes the priority and the modification instant and nothing else |
| Lifecycle.CicloCompleto | src/main/java/br/com/fiap/byteshoponlineapp/service/SolicitacaoSuporteService.java:94-141 | create, start, resolve and close succeed in turn; removing the closed request is refused with label "Fechada"; looking up id 999 gives not-found carrying 999 |

## Left out

- Transport and concurrency: HTTP routing, the exception-to-status mapping, JSON shaping and
  thread safety are not modelled. `SolicitacaoSuporteController.java` and
  `GlobalExceptionHandler.java` are not part of this model. The store is sequential, so the
  check-then-act race between `buscarPorId` and `update` is not modelled.
- Request DTOs: the length bounds on titles and descriptions (5-100 and 10-500 characters) are
  enforced by the framework before the service runs. No operation of the model requires them.
  `@NotNull` on the status of `AtualizarStatusRequest` (`AtualizarStatusRequest.java:11-12`) keeps a
  null target out of `atualizarStatus`; a null target would throw a `NullPointerException` in
  `validarTransicaoStatus`. The model's status type has no null, so that case cannot arise.
- Priority labels: priorities are a plain four-value datatype, because no rule reads their labels.
- Error messages: the three exception classes become `Erro` variants. A variant carries the id or
  the status labels where the Java message names them; the refusal to edit a FECHADA request
  carries neither. The formatted message strings are not built.
- No-argument constructor: its defaults (ABERTA, two clock readings) are modelled through the
  four-argument constructor, which is the only path that uses them. On its own, it leaves the
  title, description and priority null, and no caller in the core does that.
- `setDataCriacao` and `setDataAtualizacao` are not modelled, because the core never calls them.
  Plain getters are field reads.
- Java object identity: requests in the map are shared mutable objects in Java. In the model
  they are values. Every engine operation fails before it mutates, so the sequential behaviour is
  the same.
- Repository.Update: requires an id, because the Java map throws on a null key. This models the
  failure as a precondition.
- Service.Atualizar: requires every entry to be stored under its own id (`Keyed`), as do
  `AtualizarStatus` and `Encerrar`. `save` and `update` establish this, and every run preserves it.
- Repository.IdsNeverReused: at store level an `update` may store a request under any explicit
  id, including one the counter will hand out later (from an empty store, updating a request with
  id 1, deleting id 1 and then saving an id-less request allocates 1). The lemma is therefore
  about the counter alone; `Lifecycle.IdRemovidoNuncaVolta` states the stronger property for the
  engine, whose `update` only rewrites stored requests. It also does not model the 64-bit range of
  `AtomicLong` and `Long`: ids and counts are unbounded integers, so wrap-around after 2^63 - 1
  allocations is not represented.
- Repository.FindAll: the Java iteration order is unspecified. The model picks keys in an arbitrary
  order, and its contract says nothing about the order.
