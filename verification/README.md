# Identity server: verified model

A Dafny model of the stateful parts of the identity server, with proofs of what they promise.

| file | component |
|---|---|
| `company_sync.dfy` | the company synchronisation job, paging by offset over a list that its own loop shrinks |
| `policy_graph.dfy` | the relationship store and the depth-limited permission check |
| `policy_cache.dfy` | the check cache with detached writes and no invalidation |
| `outbox.dfy` | the outbox processor: select oldest, publish, mark |
| `session_store.dfy`, `auth_service.dfy` | the Redis session store and login, refresh and logout on top of it |
| `company_users.dfy` | the membership table behind its Redis cache |
| `membership.dfy` | company and invitation services over that cache |
| `check_digits.dfy`, `cnpj.dfy`, `cpf.dfy` | the modulo-11 check digits, validators, formats and the CNPJ generator |
| `velocity.dfy` | the fixed-window login counter |
| `registration.dfy` | registration of a tenant in one transaction with its outbox events |
| `migrations.dfy` | the migration runner and its crash safety |
| `kill_switch.dfy` | the registry of session streams and the trigger that closes them |

Objects whose methods update fields are classes; each method is tied to a function of the old state, and the
properties of whole runs are proved about those functions. Calls that may fail (Redis, the database, the broker,
external lookups) are parameters that say whether they succeed, so every theorem about runs covers every pattern of
failures it does not exclude explicitly.

Assumptions:

- the clock is an integer that never goes back, and one store call happens at one instant;
- `ORDER BY created_at` and `ORDER BY joined_at` are total orders, kept as the order of the modelled rows; an outbox row
  may become visible at any place in that order;
- ids are unique, as the primary keys and unique constraints of the migrations say;
- freshly generated session ids and refresh tokens never repeat (`AuthService.Fresh`);
- a Redis pipeline takes effect as a whole or not at all, and stored JSON reads back as written.

Where documentation and code differ, the model follows the code:

- the synchronisation job announces that it updates all active companies; it can skip some, and
  `CompanySync.CompleteExactlyWhen` gives the exact condition;
- the session store's `Delete` takes the raw key, so it never removes the session whose id it is given;
- `Logout` returns no error when the token could not be read, and the token then stays usable
  (`AuthService.LogoutReportExact`);
- the trigger of the kill switch is meant to close every stream of a user; it reads the slice without the lock, and
  `KillSwitch.TriggerClosesAllExactly` says exactly which interleavings with starting and ending streams miss one;
- approval is meant for admins, but a role is read through the cache, whose key deletes may fail:
  `Membership.AdminSeenWasAdmin` bounds how long ago the approver was one, `Membership.RemovedAdminApproves` shows it;
- two queries can share a cache key (`PolicyCache.KeyUnambiguousExactly`), and a migration can be skipped for good
  (`Migrations.CrashSafeExactly`);
- the empty CPF is stored and read back, but its JSON form is refused (`Cpf.JsonRoundTripExactly`).

## Model

| member | source | states |
|---|---|---|
| `CompanySync.CompanyRepository.ListAllActive` | internal/infrastructure/persistence/postgres/company_repo.go:163-194 | the scan returns the window of the listed ids: rows of the table, none suspended, in table order, and exactly as many as the limit and the list leave |
| `CompanySync.ListedExactly` | internal/infrastructure/persistence/postgres/company_repo.go:163-172 | the paged list holds exactly the rows that are not suspended, each once, in table order |
| `CompanySync.CompanyRepository.Update` | internal/infrastructure/persistence/postgres/company_repo.go:86-127 | replaces exactly the row with the given id; fails, changing nothing, when the statement fails or no row has the id |
| `CompanySync.CompanySyncService.SyncCompany` | internal/application/service/company_sync_service.go:86-164 | reports an update exactly when the situation text asks for another status and the row could be written, a failure exactly when the lookup failed or that write did |
| `CompanySync.CompanySyncService.SyncCompanies` | internal/application/service/company_sync_service.go:57-68 | visits one page in order; the counters are the number of visits that update, that fail and that do not fail |
| `CompanySync.CompanySyncService.SyncPages` | internal/application/service/company_sync_service.go:40-83 | the paging loop terminates for any page size, ends with the rows, the visiting order and the result of the specified run, and its counters add up to the visits |
| `CompanySync.CompanySyncService.SyncAll` | internal/application/service/company_sync_service.go:37-84 | no company is visited twice, only listed ones are, and each visited one follows the registry's answer to its visit; nothing else in the table changes |
| `CompanySync.PageEffect` | internal/application/service/company_sync_service.go:57-68 | visiting a page rewrites exactly its own stretch of the paged list: the suspended entries leave, everything before and after stays |
| `CompanySync.PageMovesCursor` | internal/application/service/company_sync_service.go:70-75 | after a full page the fixed offset step jumps over one untouched company for each one the page suspended |
| `CompanySync.RunFollowsPlan` | internal/application/service/company_sync_service.go:47-76 | the loop over the changing table visits exactly a schedule computed from the list as it was at the start |
| `CompanySync.PlanWithinList` | internal/application/service/company_sync_service.go:47-76 | the schedule repeats no company and names only listed ones |
| `CompanySync.MissedBySuspensions` | internal/application/service/company_sync_service.go:47-76 | with readable pages, at most as many listed companies are missed as were suspended on full pages |
| `CompanySync.CompleteExactlyWhen` | internal/application/service/company_sync_service.go:35-84 | with readable pages, every listed company is visited if and only if no visit before the last page suspends its company |
| `CompanySync.BeforeLastPageClosed` | internal/application/service/company_sync_service.go:47-76 | the visits before the last page are the largest whole number of pages that is less than the number of listed companies |
| `CompanySync.RunSettles` | internal/application/service/company_sync_service.go:86-164 | the final status of every visited company is the one its own visit asked for, and every other row and column is as before |
| `CompanySync.RunFollowsRegistry` | internal/application/service/company_sync_service.go:102-125 | a visited company ends suspended if and only if its update succeeded and the registry answered BAIXADA, INAPTA, NULA or SUSPENSA; active for ATIVA; unchanged for any other text, no answer or a failed update |
| `CompanySync.SyncAllTheorem` | internal/application/service/company_sync_service.go:37-84 | the whole job in one statement: no double visit, exact final table, bound on missed companies, exact condition for completeness |
| `CompanySync.MissedAfterFirst` | internal/application/service/company_sync_service.go:37-84 | with one listed company more than a page holds, a first visit that suspends leaves the last one unvisited and unchanged |
| `CompanySync.FiftyFirstMissed` | internal/application/service/company_sync_service.go:37-84 | the concrete run: 51 active companies, the first closed by the registry, the 51st neither visited nor changed |
| `PolicyGraph.ParseExact` | internal/infrastructure/persistence/postgres/policy_repo.go:23-29 | parsing yields (type, id) exactly for the string type:id with a colon-free type, and fails exactly on strings without a colon |
| `PolicyGraph.ExpandExact` | internal/infrastructure/persistence/postgres/policy_repo.go:55-63 | one recursive step adds exactly the member subjects of working rows of depth below 10, one deeper |
| `PolicyGraph.SearchExact` | internal/infrastructure/persistence/postgres/policy_repo.go:43-69 | the working-table iteration collects exactly the ends of walks no longer than 10, on cyclic tuples too |
| `PolicyGraph.GrantedExact` | internal/infrastructure/persistence/postgres/policy_repo.go:43-69 | the check answers true if and only if a walk of length 1 to 10 leads from object to subject: one edge of the relation, then member edges |
| `PolicyGraph.CheckExact` | internal/infrastructure/persistence/postgres/policy_repo.go:32-78 | from the strings of the call: entities without a colon are refused, otherwise allowed if and only if a walk of at most 10 edges, one of the relation and then member edges, leads from object to subject |
| `PolicyGraph.DepthLimitExact` | internal/infrastructure/persistence/postgres/policy_repo.go:43-69 | the depth-limited check equals unbounded reachability for all subjects if and only if depth 11 adds no new subject |
| `PolicyGraph.FewReachableMeansExact` | internal/infrastructure/persistence/postgres/policy_repo.go:43-69 | with at most 10 reachable subjects the check is reachability (pigeonhole and walk shortening) |
| `PolicyGraph.ChainExact` | internal/infrastructure/persistence/postgres/policy_repo.go:63-63 | the bound is tight: the end of a chain of k groups is always reachable and is found exactly for k up to 10 |
| `PolicyGraph.GrantedMonotone` | internal/infrastructure/persistence/postgres/policy_repo.go:43-69 | only the edges matter, whichever tenants record them, and more edges never revoke an answer |
| `PolicyGraph.WriteOnlyGrants` | internal/infrastructure/persistence/postgres/policy_repo.go:81-105 | a write never revokes an answer and grants at least its own tuple |
| `PolicyGraph.DeleteOnlyRevokes` | internal/infrastructure/persistence/postgres/policy_repo.go:108-131 | a delete never grants an answer, and revokes none while another tenant records the same edge |
| `PolicyGraph.RowNamed` | internal/infrastructure/persistence/postgres/policy_repo.go:81-105 | the stored row of a tuple: parsed subject and object, its relation, its tenant or the nil tenant |
| `PolicyGraph.OtherTenantKeeps` | internal/infrastructure/persistence/postgres/policy_repo.go:108-131 | a tuple written by two tenants and deleted by one is still granted |
| `PolicyGraph.PolicyRepository.Check` | internal/infrastructure/persistence/postgres/policy_repo.go:32-78 | refuses entities without a colon; otherwise answers exactly whether a walk of at most 10 edges exists, or the store error |
| `PolicyGraph.PolicyRepository.WriteTuple` | internal/infrastructure/persistence/postgres/policy_repo.go:81-105 | afterwards the row the tuple names, under its tenant or the nil tenant when it has none, is there, and every other row is as it was |
| `PolicyGraph.PolicyRepository.DeleteTuple` | internal/infrastructure/persistence/postgres/policy_repo.go:108-131 | afterwards the row the tuple names is gone, and every other row, another tenant's copy included, is as it was |
| `PolicyCache.KeyInjective` | internal/infrastructure/persistence/redis/policy_cache.go:29-30 | among the queries the store answers, only the query itself has the key of a well-formed one |
| `PolicyCache.KeyTwin` | internal/infrastructure/persistence/redis/policy_cache.go:29-30 | every other query the store answers shares its key with an explicit different one |
| `PolicyCache.KeyUnambiguousExactly` | internal/infrastructure/persistence/redis/policy_cache.go:29-30 | the key tells a query apart from all others the store answers if and only if no id and no relation in it has a colon |
| `PolicyCache.TruthExact` | internal/infrastructure/persistence/postgres/policy_repo.go:43-69 | the answer the cache stands for is whether a walk of at most 10 edges exists |
| `PolicyCache.CachedPolicyRepository.Check` | internal/infrastructure/persistence/redis/policy_cache.go:29-60 | serves a readable live entry, else the store's answer; an answer, granted or denied, starts one detached cache write, an error none |
| `PolicyCache.CachedPolicyRepository.FinishSet` | internal/infrastructure/persistence/redis/policy_cache.go:53-57 | the detached write stores the answer it was started with, expiring one ttl after it is carried out |
| `PolicyCache.ReadBackExactly` | internal/infrastructure/persistence/redis/policy_cache.go:29-60 | a computed answer, granted or denied, is served without the store exactly for ttl after its write, and never when Redis cannot be read |
| `PolicyCache.CachedPolicyRepository.WriteTuple` | internal/infrastructure/persistence/redis/policy_cache.go:62-76 | changes the tuples only; no cache entry is dropped |
| `PolicyCache.CachedPolicyRepository.DeleteTuple` | internal/infrastructure/persistence/redis/policy_cache.go:78-83 | changes the tuples only; no cache entry is dropped |
| `PolicyCache.AlwaysBacked` | internal/infrastructure/persistence/redis/policy_cache.go:29-83 | in every reachable state each cached and each pending answer was the true one at an instant the entry still accounts for |
| `PolicyCache.BoundedStaleness` | internal/infrastructure/persistence/redis/policy_cache.go:29-83 | every answer served to a well-formed query, in runs that check any queries, was the true answer less than ttl plus the write delay ago |
| `PolicyCache.BoundReached` | internal/infrastructure/persistence/redis/policy_cache.go:29-83 | the bound is reached: for every tuple, ttl and delay a run whose last answer is ttl + delay - 1 old and has been wrong ever since |
| `Outbox.Processor.PublishAndMark` | internal/infrastructure/messaging/outbox/processor.go:112-125 | a failed publish changes nothing; a failed mark leaves the event published and waiting |
| `Outbox.Processor.ProcessBatch` | internal/infrastructure/messaging/outbox/processor.go:75-128 | a pass over the oldest unprocessed rows does to the table what publishing and marking them one by one does; a failed query does nothing |
| `Outbox.PassExact` | internal/infrastructure/messaging/outbox/processor.go:75-128 | one pass publishes each selected event exactly once unless its publish fails, and marks it unless its mark fails too |
| `Outbox.SelectOldest` | internal/infrastructure/messaging/outbox/processor.go:76-84 | a waiting event is left out of a batch only when the batch is full of older ones |
| `Outbox.AtLeastOnce` | internal/infrastructure/messaging/outbox/processor.go:112-125 | in every run a processed event was published, and an event is published exactly once per failed mark plus once when marked |
| `Outbox.PassShrinksBacklog` | internal/infrastructure/messaging/outbox/processor.go:75-128 | one pass delivers an event or takes off the publishable ones that ever stand before it at least the batch size less the poison ones among them |
| `Outbox.BacklogDrains` | internal/infrastructure/messaging/outbox/processor.go:75-128 | over any run, with rows arriving at any place in created order, they drain at that rate until the event is delivered |
| `Outbox.DeliveredWithin` | internal/infrastructure/messaging/outbox/processor.go:75-128 | with h publishable and f < b poison events ever at or before it, late arrivals included, an event is published and marked after ceil(h / (b - f)) passes; what arrives behind it cannot delay it |
| `Outbox.HeadOfLineBlocking` | internal/infrastructure/messaging/outbox/processor.go:76-84 | an event with b or more waiting, always failing ones before it is never delivered, whatever arrives or else fails |
| `Outbox.DeliveredExactly` | internal/infrastructure/messaging/outbox/processor.go:75-128 | when the poison events always fail and none arrives before it, after enough passes an event is delivered if and only if fewer than b of them wait before it |
| `Outbox.LateArrivalDelays` | internal/infrastructure/messaging/outbox/publisher.go:27-31 | the created time is set by the database when the transaction begins, so a row can become visible before older-looking ones are done: the concrete runs where it delays an event and where it does not |
| `SessionStore.RedisSessionStore.Create` | internal/infrastructure/persistence/redis/session_store.go:83-106 | writes the session, its refresh key and its entry in the owner set, each with its own expiry, or nothing |
| `SessionStore.RedisSessionStore.GetByID` | internal/infrastructure/persistence/redis/session_store.go:109-123 | the live session stored under the id, if any |
| `SessionStore.RedisSessionStore.GetByRefreshToken` | internal/infrastructure/persistence/redis/session_store.go:126-136 | follows a live refresh key to a live session |
| `SessionStore.RedisSessionStore.Update` | internal/infrastructure/persistence/redis/session_store.go:139-153 | rewrites the session key alone, with what is left of its lifetime |
| `SessionStore.RedisSessionStore.CollectTokens` | internal/infrastructure/persistence/redis/session_store.go:168-178 | the loop finds the tokens of exactly the listed sessions whose lookup succeeds |
| `SessionStore.RedisSessionStore.ReadMembers` | internal/infrastructure/persistence/redis/session_store.go:157-162 | the ids in the live set of the user |
| `SessionStore.RedisSessionStore.DeleteSessions` | internal/infrastructure/persistence/redis/session_store.go:164-182 | removes the given sessions, the tokens found for them and the set, all or nothing; no ids is success |
| `SessionStore.RedisSessionStore.DeleteByUserID` | internal/infrastructure/persistence/redis/session_store.go:156-183 | both halves in one step |
| `AuthService.AuthServiceImpl.LoginWithUser` | internal/application/service/auth_service.go:80-170 | succeeds exactly when every check and the store succeed; then one week-long session is created, otherwise nothing changes; an unknown address and a wrong password give the same error |
| `AuthService.AuthServiceImpl.RefreshToken` | internal/application/service/auth_service.go:173-221 | succeeds exactly when the token resolves to an unrevoked, unexpired session and the user and access token are there; hands back the same token |
| `AuthService.AuthServiceImpl.Logout` | internal/application/service/auth_service.go:224-236 | marks the session revoked; reports success also when the token could not be read |
| `AuthService.StoreMirrorsHistory` | internal/infrastructure/persistence/redis/session_store.go:83-183 | in every reachable state the three indices hold exactly what the history of logins, logouts and purges implies |
| `AuthService.AcceptedExactlyWhenGranted` | internal/application/service/auth_service.go:173-184 | a token is accepted if and only if a login issued it less than a week ago and no effective logout of it or purge of its owner came since |
| `AuthService.RevocationIsFinal` | internal/application/service/auth_service.go:224-236 | an issued token that is not accepted is never accepted again |
| `AuthService.IndicesAgree` | internal/infrastructure/persistence/redis/session_store.go:83-106 | every live session is in its owner's live set, which outlives it, and its live refresh key leads back to it |
| `AuthService.PurgeIsExact` | internal/infrastructure/persistence/redis/session_store.go:156-183 | after an undisturbed DeleteByUserID no token of the user resolves, even when lookups inside it failed, and every other user's tokens resolve as before |
| `AuthService.PurgeRaceExact` | internal/infrastructure/persistence/redis/session_store.go:156-183 | when other calls run between its read and its pipeline, of the user's resolvable tokens exactly those issued in between survive, they are in no set, and a later call leaves them |
| `AuthService.LogoutReportExact` | internal/application/service/auth_service.go:224-236 | a logout that reports success leaves the token usable if and only if reading the token failed |
| `CompanyUsers.CompanyUserRepository.AddUser` | internal/infrastructure/persistence/postgres/company_user_repo.go:25-44 | appends the row; fails on a pair that has one already |
| `CompanyUsers.CompanyUserRepository.RemoveUser` | internal/infrastructure/persistence/postgres/company_user_repo.go:47-59 | removes the row of the pair; fails when there is none |
| `CompanyUsers.CompanyUserRepository.UpdateUserRole` | internal/infrastructure/persistence/postgres/company_user_repo.go:143-160 | sets the role of the pair's row and nothing else; fails when there is none |
| `CompanyUsers.CompanyUserRepository.UpdateUserStatus` | internal/infrastructure/persistence/postgres/company_user_repo.go:163-180 | sets the status of the pair's row and nothing else; fails when there is none |
| `CompanyUsers.PairsStayUnique` | internal/infrastructure/persistence/postgres/company_user_repo.go:25-180 | every write keeps one row per company and user |
| `CompanyUsers.RolesOfRows` | internal/infrastructure/persistence/postgres/company_user_repo.go:62-78 | in every run a role is answered exactly when the one row of the pair is active, and it is that row's role |
| `CompanyUsers.RowForExact` | internal/infrastructure/persistence/postgres/company_user_repo.go:62-78 | the row of a pair is the one the table has for it, and the role answered is its role when it is active |
| `CompanyUsers.ListExact` | internal/infrastructure/persistence/postgres/company_user_repo.go:81-109 | the list of a user holds exactly the rows of that user, each as often as the table has it, latest first |
| `CompanyUsers.NewRoleAnswered` | internal/infrastructure/persistence/postgres/company_user_repo.go:143-160 | after its role is changed an active member is answered the new role, and a pair that was not active none |
| `CompanyUsers.CachedCompanyUserRepository.AddUser` | internal/infrastructure/persistence/redis/cached_company_user_repository.go:36-42 | after a successful insert drops the list entry of the user, but not the role entry of the pair |
| `CompanyUsers.CachedCompanyUserRepository.RemoveUser` | internal/infrastructure/persistence/redis/cached_company_user_repository.go:44-51 | after a successful delete drops both entries; a failed Redis delete is ignored |
| `CompanyUsers.CachedCompanyUserRepository.UpdateUserRole` | internal/infrastructure/persistence/redis/cached_company_user_repository.go:125-132 | after a successful update drops both entries |
| `CompanyUsers.CachedCompanyUserRepository.UpdateUserStatus` | internal/infrastructure/persistence/redis/cached_company_user_repository.go:134-141 | after a successful update drops both entries |
| `CompanyUsers.CachedCompanyUserRepository.GetUserRole` | internal/infrastructure/persistence/redis/cached_company_user_repository.go:53-84 | serves a live role or not-member entry, else the table's answer, cached for the ttl or, when negative, for one minute |
| `CompanyUsers.CachedCompanyUserRepository.GetCompaniesForUser` | internal/infrastructure/persistence/redis/cached_company_user_repository.go:86-118 | serves a live list, else exactly the user's rows, latest first, cached for the ttl |
| `CompanyUsers.RoleStalenessBound` | internal/infrastructure/persistence/redis/cached_company_user_repository.go:53-84 | with every Redis and database call free to fail, each role or not-member answer was the table's within the last max(ttl, one minute) |
| `CompanyUsers.ListStalenessBound` | internal/infrastructure/persistence/redis/cached_company_user_repository.go:86-118 | and each list was the table's within the last ttl |
| `CompanyUsers.ReadBackExactly` | internal/infrastructure/persistence/redis/cached_company_user_repository.go:53-118 | what a read caches is served without the database exactly for the ttl, a not-member for exactly a minute |
| `CompanyUsers.OtherListsKept` | internal/infrastructure/persistence/redis/cached_company_user_repository.go:144-149 | a write about another user keeps a user's cached list |
| `CompanyUsers.AlwaysSound` | internal/infrastructure/persistence/redis/cached_company_user_repository.go:36-156 | while cache deletes succeed, every cached role is the table's and every cached list is the table's |
| `CompanyUsers.ServedIsCurrent` | internal/infrastructure/persistence/redis/cached_company_user_repository.go:53-118 | while cache deletes succeed, a role served is that of a currently active row and a list served holds exactly the user's current rows |
| `CompanyUsers.NegativeExplained` | internal/infrastructure/persistence/redis/cached_company_user_repository.go:67-76 | every cached not-member entry was true when cached and can be wrong only after an intervening AddUser for the pair |
| `CompanyUsers.FalseNegativeExplained` | internal/infrastructure/persistence/redis/cached_company_user_repository.go:36-76 | a false not-member is served only within a minute of being cached and only after an AddUser for that pair in between |
| `CompanyUsers.ServedBetweenWritesExactly` | internal/infrastructure/persistence/redis/cached_company_user_repository.go:53-84 | while no write to a pair succeeds, a role read gets the answer cached at the start until it expires or is refilled, and the table's from then on, whatever else fails |
| `CompanyUsers.FalseNegativeExactly` | internal/infrastructure/persistence/redis/cached_company_user_repository.go:36-42 | after an active row was added, not-member is served if and only if a live not-member entry existed at the call, until it expires or is refilled |
| `CompanyUsers.StaleRoleExactly` | internal/infrastructure/persistence/redis/cached_company_user_repository.go:44-51 | after a row was removed, a role is served if and only if it was cached live at the call and the delete of its key failed, until the entry expires or is refilled |
| `CompanyUsers.Activation` | internal/infrastructure/persistence/postgres/company_user_repo.go:25-44 | a pair gains an active row only by adding an active row or by setting its status to active |
| `Membership.Repositories.SeesMember` | internal/infrastructure/persistence/redis/cached_company_user_repository.go:53-84 | whether the cached role read shows a role; a failed read shows none |
| `Membership.Repositories.TestAdmin` | internal/application/service/company_service.go:640-647 | the admin test: passed only for a role read that shows admin, with the reason otherwise |
| `Membership.ParseRoleExact` | internal/domain/company/company.go:53-68 | exactly the texts admin, member and viewer are roles, each its own |
| `Membership.CreateExact` | internal/application/service/company_service.go:80-244 | done exactly when the CNPJ is valid, not closed and free, the creator exists and every write succeeds; then the creator's admin row is the only row changed |
| `Membership.AddUserExact` | internal/application/service/company_service.go:281-347 | done exactly when company and user exist, no role is seen and the pair has no row; then the pair has an active row with the named role and nothing else changed; the reason of each refusal |
| `Membership.RequestJoinExact` | internal/application/service/company_service.go:598-633 | the same with a pending member row |
| `Membership.RemoveUserExact` | internal/application/service/company_service.go:350-398 | done exactly when the company exists, a role is seen and the pair has a row; then that row alone is gone |
| `Membership.ApproveExact` | internal/application/service/company_service.go:636-656 | done exactly for a seen admin and a target with a row; then that row's status alone has changed, to active |
| `Membership.RejectExact` | internal/application/service/company_service.go:659-679 | done exactly for a seen admin and a target with a row; then the target's row alone is gone |
| `Membership.UpdateRoleExact` | internal/application/service/company_service.go:482-518 | done exactly when a role is seen and, unless it is the same, the row could be written; then its role alone has changed |
| `Membership.AcceptExact` | internal/application/service/invitation_service.go:99-151 | who joins and with which role, when the invitation is marked, and the reason of each refusal |
| `Membership.InviteExact` | internal/application/service/invitation_service.go:45-78 | done exactly for a seen admin, no seen member and no open invitation found; what is stored, for seven days; no membership row changes |
| `Membership.CompanyService.CreateCompany` | internal/application/service/company_service.go:80-244 | checks the CNPJ, the registry's situation and that the number is free; the company and its creator's admin row are added together or not at all |
| `Membership.CompanyService.AddUserToCompany` | internal/application/service/company_service.go:281-347 | gives the pair an active row with the named role and changes no other pair; refused, it changes nothing; a failed role read does not stand against it |
| `Membership.CompanyService.RemoveUserFromCompany` | internal/application/service/company_service.go:350-398 | takes the pair's row away and changes no other; refused, it changes nothing |
| `Membership.CompanyService.UpdateUserRole` | internal/application/service/company_service.go:482-518 | gives the pair's row the named role and changes nothing else; refused or with the same role, it changes nothing |
| `Membership.CompanyService.RequestJoin` | internal/application/service/company_service.go:598-633 | gives the pair a pending member row and changes no other; refused, it changes nothing |
| `Membership.CompanyService.ApproveMember` | internal/application/service/company_service.go:636-656 | sets the status of the target's row to active and changes nothing else; refused, it changes nothing |
| `Membership.CompanyService.RejectMember` | internal/application/service/company_service.go:659-679 | takes the target's row away and changes no other; refused, it changes nothing |
| `Membership.InvitationService.InviteUser` | internal/application/service/invitation_service.go:45-96 | only someone seen as admin invites; an existing member is invited too when the read of the role fails |
| `Membership.InvitationService.Offer` | internal/application/service/invitation_service.go:65-78 | refuses while the pending invitation found for the address and company is open, else stores one for seven days |
| `Membership.InvitationService.AcceptInvitation` | internal/application/service/invitation_service.go:99-151 | a pending unexpired invitation adds its user as active and is then marked accepted; the insert and the mark may each fail |
| `Membership.StepFilled` | internal/application/service/company_service.go:80-679 | whatever fails, an operation leaves only role entries that were there before or are the table's answers at its start |
| `Membership.AdminSeenWasAdmin` | internal/application/service/company_service.go:640-647 | over all runs and failures, whoever a service takes for an admin had an active admin row less than ttl before |
| `Membership.AdminSeenIsAdmin` | internal/application/service/company_service.go:640-647 | and has one at that moment while no delete of a role key has failed |
| `Membership.RemovedAdminApproves` | internal/infrastructure/persistence/redis/cached_company_user_repository.go:144-156 | in any world one failing delete lets a removed admin approve a member until the key expires |
| `Membership.PerformSound` | internal/application/service/company_service.go:80-679 | an operation whose role-key delete succeeds leaves no role in the cache that the table does not have |
| `Membership.StepActivates` | internal/application/service/company_service.go:636-656 | whatever fails, a pair becomes active only through company creation, AddUserToCompany, acceptance or approval |
| `Membership.ActiveMembershipTraced` | internal/application/service/company_service.go:135-171 | in every reachable state each active membership goes back to one of these, active without a break since; the approver was an active admin less than ttl before, and at that moment if no role-key delete had failed |
| `Membership.InvitationTraced` | internal/application/service/invitation_service.go:45-96 | every stored invitation was issued by someone who was an active admin of its company less than ttl before (at that moment, if no role-key delete had failed), keeps its content, and stays accepted once accepted |
| `Membership.CompaniesAlwaysSound` | internal/application/service/company_service.go:93-108 | in every reachable state each company has a valid CNPJ that no other company has |
| `CheckDigits.IsAllSameDigit` | internal/domain/company/cnpj.go:67-78 | true exactly when all characters are equal, the empty string included |
| `CheckDigits.ValidateCheckDigit` | internal/domain/company/cnpj.go:90-119 | true exactly when the digits up to the position are digits and the digit at it is the one the weighted sum asks for |
| `CheckDigits.NormalizeDigits` | internal/domain/company/cnpj.go:40-43 | normalizing leaves only digits, and a string of digits as it is |
| `CheckDigits.UnseenExactly` | internal/domain/company/cnpj.go:107-118 | a changed digit keeps the expected check digit if and only if the remainder moves between 0 and 1 |
| `Cnpj.ValidateCNPJ` | internal/domain/company/cnpj.go:15-36 | accepts exactly the inputs whose 14 digits are not all equal and pass both check-digit tests |
| `Cnpj.OfficialExactly` | internal/domain/company/cnpj.go:90-119 | the accepted numbers are those of the official rule: 14 digits, not all equal, digits 12 and 13 the modulo-11 digits of the sums with weights 2 + (11 - i) % 8 and 2 + (12 - i) % 8 |
| `Cnpj.AcceptedExample` | internal/domain/company/cnpj.go:15-36 | 11222333000181 is accepted, and not with another last digit |
| `Cnpj.FormatRoundTrip` | internal/domain/company/cnpj.go:40-53 | normalizing a formatted CNPJ gives what normalizing the input gives, and formatting twice is formatting once |
| `Cnpj.SingleErrorExact` | internal/domain/company/cnpj.go:90-119 | changing one digit of a valid CNPJ goes unnoticed if and only if it is at position 0, 4 or 8 and both sums move between remainders 0 and 1 |
| `Cnpj.BlindAt` | internal/domain/company/cnpj.go:90-119 | a valid number and a valid variant that differs in one digit, for each of the three positions |
| `Cnpj.CheckDigitsUnique` | internal/domain/company/cnpj.go:90-119 | every 12-digit body has exactly one pair of check digits that passes both tests |
| `Cnpj.CalculateCheckDigit` | cmd/verify/checks/company.go:525-543 | computes the digit that the validator expects |
| `Cnpj.GenerateBody` | cmd/verify/checks/company.go:493-501 | eight digits from the random input and the branch 0001 |
| `Cnpj.GenerateCNPJ` | cmd/verify/checks/company.go:493-515 | whatever the random bytes, the generated number is accepted by the validator and is already normalized |
| `Cpf.ValidateCPF` | internal/domain/document/cpf.go:115-140 | no error exactly for the 11-digit numbers that pass both tests; the blacklist error exactly for equal digits |
| `Cpf.OfficialExactly` | internal/domain/document/cpf.go:197-222 | the accepted numbers are those of the official rule: 11 digits, not all equal, digits 9 and 10 the modulo-11 digits of the sums with weights position + 1 - i |
| `Cpf.AcceptedExample` | internal/domain/document/cpf.go:115-140 | 52998224725 is accepted |
| `Cpf.CpfVar.Scan` | internal/domain/document/cpf.go:49-75 | assigns the scanned value or leaves the variable unchanged, and never leaves an invalid CPF in it |
| `Cpf.CpfVar.UnmarshalJSON` | internal/domain/document/cpf.go:84-95 | assigns the parsed value or leaves the variable unchanged, and never leaves an invalid CPF in it |
| `Cpf.FormatRoundTrip` | internal/domain/document/cpf.go:143-170 | normalizing a formatted CPF gives what normalizing the input gives |
| `Cpf.ScanOfValue` | internal/domain/document/cpf.go:44-75 | Scan undoes Value for every CPF, the empty one included, as text and as bytes |
| `Cpf.JsonRoundTripExactly` | internal/domain/document/cpf.go:79-95 | unmarshalling a marshalled CPF gives it back if and only if it is not empty |
| `Cpf.SingleErrorExact` | internal/domain/document/cpf.go:197-222 | changing one digit of a valid CPF goes unnoticed if and only if it is at position 0 and the first sum moves between remainders 0 and 1, or at position 5 and both do |
| `Cpf.BlindAt` | internal/domain/document/cpf.go:197-222 | a valid number and a valid variant that differs in one digit, for both positions |
| `Velocity.VelocityRule.Evaluate` | internal/domain/risk/rules.go:31-50 | increments the counter, sets the expiry only when it was created, ignores a failing EXPIRE, flags counts above the limit |
| `Velocity.CounterExact` | internal/domain/risk/rules.go:31-43 | the counter holds the login's rank in its period and expires one window after the period's first login |
| `Velocity.FlaggedExact` | internal/domain/risk/rules.go:45-47 | a login is flagged if and only if it is beyond the limit-th of its period |
| `Velocity.PeriodExact` | internal/domain/risk/rules.go:31-50 | a period of n logins leaves exactly min(n, limit) unflagged |
| `Velocity.AtMostTwiceTheLimit` | internal/domain/risk/rules.go:31-50 | any interval one window long contains at most twice the limit of unflagged logins, whatever the times |
| `Velocity.TwiceIsReached` | internal/domain/risk/rules.go:31-50 | the factor two is reached for every positive limit and window |
| `Velocity.LostExpiryIsForever` | internal/domain/risk/rules.go:40-43 | a counter whose EXPIRE failed never expires and counts on forever |
| `Registration.RegistrationService.WriteAll` | internal/application/service/registration_service.go:125-184 | the transaction body succeeds exactly when all six writes do, and then its view holds the tenant, user, owner tuple and both events |
| `Registration.RegistrationService.RegisterWithTenant` | internal/application/service/registration_service.go:76-188 | success means exactly this tenant, user, owner tuple and these two outbox rows were added; an error means unchanged, unless the commit's reply was lost |
| `Registration.AttemptAnnounced` | internal/infrastructure/messaging/outbox/publisher.go:27-62 | one attempt keeps tenants and TenantProvisioned rows, and users and UserCreated rows, in one-to-one correspondence |
| `Registration.RunsConsistent` | internal/application/service/registration_service.go:125-184 | over all runs of attempts, failing at will and reusing ids, both properties hold |
| `Migrations.StringOrderIsNumeric` | cmd/migrate/main.go:109-151 | for prefixes of equal width, or zero-padded against wider unpadded ones, string order of names is numeric order of versions |
| `Migrations.NoVersionExactly` | cmd/migrate/main.go:141-151 | a name has a version exactly when it starts with a digit |
| `Migrations.VersionExact` | cmd/migrate/main.go:141-151 | the version is the decimal number the name starts with |
| `Migrations.SortedNamesAscend` | cmd/migrate/main.go:97-111 | so the sorted file list is in ascending version order |
| `Migrations.UnpaddedNamesMisorder` | cmd/migrate/main.go:109-151 | without padding 10 sorts before 9; if the process dies after 10 is committed, 9 is never applied, however often it runs again |
| `Migrations.Runner.ApplyMigration` | cmd/migrate/main.go:153-185 | the script and its clean version row are committed together or not at all; a dirty row is never visible |
| `Migrations.Runner.ApplyPending` | cmd/migrate/main.go:113-139 | a process that dies anywhere has applied exactly the pending files before that point; a dirty row or a name without a version stops it |
| `Migrations.CrashesKeepPrefix` | cmd/migrate/main.go:127-185 | any sequence of crashed processes leaves the database at a complete, clean prefix of the migrations |
| `Migrations.CrashSafe` | cmd/migrate/main.go:127-185 | with ascending versions, any sequence of crashed runs followed by a complete one gives the database of one uninterrupted run |
| `Migrations.CrashSafeExactly` | cmd/migrate/main.go:127-185 | every crash point followed by a complete run gives the uninterrupted database if and only if the sorted files have ascending versions |
| `Migrations.RerunQuietExactly` | cmd/migrate/main.go:127-139 | in any file order, a second complete run executes nothing if and only if the last file has the highest version |
| `KillSwitch.Server.Add` | internal/interfaces/grpc/server.go:113-117 | a new stream goes into the next slot of the same array while it has room, else into a larger copy |
| `KillSwitch.Server.Find` | internal/interfaces/grpc/server.go:121-123 | the first slot with the channel |
| `KillSwitch.Server.CloseGap` | internal/interfaces/grpc/server.go:124-124 | later slots move down in the same array, the last one keeps its value |
| `KillSwitch.Server.Remove` | internal/interfaces/grpc/server.go:119-131 | a stream that ends is taken out in place; the last one takes the user's entry with it |
| `KillSwitch.Server.Begin` | internal/interfaces/grpc/server.go:237-245 | the trigger takes the slice as it is then |
| `KillSwitch.Server.CloseNext` | internal/interfaces/grpc/server.go:246-254 | closes the channel in the next slot if it is open, and counts it |
| `KillSwitch.Server.Step` | internal/interfaces/grpc/server.go:246-254 | the same as a step of an interleaved run |
| `KillSwitch.Server.Trigger` | internal/interfaces/grpc/server.go:236-257 | run alone, closes exactly the registered channels and returns how many of them were open |
| `KillSwitch.TrackStep` | internal/interfaces/grpc/server.go:113-131 | a step of any stream or of the trigger keeps a registered stream on track if and only if it does not take its only slot ahead away while it is open |
| `KillSwitch.StreamHistory` | internal/interfaces/grpc/server.go:236-257 | in every interleaving a stream registered at the start is registered until it ends, and closed or still ahead if and only if nothing stranded it |
| `KillSwitch.ClosedExactly` | internal/interfaces/grpc/server.go:236-257 | when the trigger is through, a stream registered from its start to its end is closed if and only if no step stranded it |
| `KillSwitch.TriggerClosesAllExactly` | internal/interfaces/grpc/server.go:236-257 | every stream registered from start to end is closed if and only if each stream that a step strands also ends after that step |
| `KillSwitch.HiddenStream` | internal/interfaces/grpc/server.go:119-127 | a run that misses a stream because an already visited one ends |
| `KillSwitch.OverwrittenStream` | internal/interfaces/grpc/server.go:113-127 | a run that misses one because a new stream takes the slot that still held it |

## Left out

- HTTP, gRPC, GraphQL and protobuf plumbing, the web interface, mail, SMS and registry clients: input and output only.
- JWT, bcrypt, WebAuthn and TOTP cryptography and the circuit breaker: library code; login takes the outcome of the password and token steps as inputs.
- Row-level security and SECURITY DEFINER functions of the database.
- In-memory event bus, audit publishing, metrics and logging: they do not feed back into the modelled state.
- Login counter: the risk engine around it and the impossible-travel rule, which compares floating-point distances.
- Expiries below one second: the client library's rounding of durations and its KeepTTL value are not modelled.
- PolicyCache.BoundedStaleness: stated for served queries whose ids and relation have no colon; `PolicyCache.KeyTwin` shows why. Other queries of the run may have them.
- Outbox: runs have the processor as the only marker; the sentinel worker, which also marks rows, is not modelled.
- Session store: the WebAuthn session and string keys, and GenerateTokenForUser.
- CompanyUsers.ServedIsCurrent: assumes that cache deletes succeed; with failing ones RoleStalenessBound and ListStalenessBound hold.
- Membership: AddUserToCompany has no admin test in the code and has none in the model; sending the invitation mail is left out. Operations run one after the other.
- SwitchCompany, SuspendCompany, ActivateCompany, GetUsersForCompany, Revoke of an invitation, and masking: easy members; the CNPJ blacklist holds only numbers of equal digits, which the validator refuses already.
- Cnpj and Cpf: text is a sequence of characters; a length in bytes differs only before normalization, which keeps ASCII digits alone.
- Registration: generated ids, hashing and the validation of the CPF are inputs; panics roll back like errors and have no case of their own.
- Migrations.SortedNamesAscend: versions with a sign or leading blanks and versions beyond 64 bits are not modelled, nor are -reset and down files.
- KillSwitch.TriggerClosesAllExactly: one trigger at a time, and a removal is one step for it; a read in the middle of the shift is not modelled.
