# TodoList services: verified model of the decision logic

The system is a to-do application built as NestJS microservices. A client gateway answers
HTTP and forwards messages to an auth service, a task service, a project service and a user
service, each of which owns its own database tables. This Dafny project models the parts of
that code that decide something:

- **The auth service's credential flow and session store.** Registration, login, token
  validation and logout are state transitions over the users, roles, user-role links and
  sessions tables. They are written twice:
  - `Auth`: functions from one database value to the next, where the properties are proved;
  - `AuthService.AuthService`: a class whose fields are the tables and whose methods
    step through the same inserts and deletes. Each method is proved equal to its function.
- **The seed script.** It creates the `user` and `admin` roles, each only when it is absent
  (`Seed`).
- **The gateway's JWT guard and auth controller.** These cover Authorization-header
  handling and token extraction. Extraction removes the first `"Bearer "` anywhere in the
  header, not only at its start (`BearerToken`, `JwtAuthGuard`, `GatewayAuthController`).
- **The gateway's RPC exception filter.** It turns an RPC error into an HTTP status and a
  body (`RpcExceptionFilter`).
- **The tasks, projects and users services.** This covers their pagination arithmetic
  (`Pagination`) and their check-then-update, check-then-insert and append-history steps
  on in-memory tables (`Tables`, `TasksService`, `ProjectsService`, `UsersService`).
- **The gateway's task, project and user controllers.** Their payloads are built by object
  spread, which decides whether the token's `sub`, the URL id or the client's body wins
  (`GatewayTasksController`, `GatewayProjectsController`, `GatewayUsersController`).

## How the model stands in for what it cannot see

- **Crypto.** bcrypt and the JWT library are a value `Auth.Crypto` of four functions: hash,
  compare, sign and verify. The predicate `Auth.Sound` holds the only assumptions:
  - a password matches its own hash;
  - a freshly signed token verifies to the claims it was signed with, within its lifetime.

  No algorithm is modelled.
- **Time.** The current time is an integer number of seconds passed as `now`. A session
  expires at `now + 3600`.
- **Storage failures.** Only those that change the outcome are modelled, as boolean
  parameters:
  - a failed default-role step during registration, which is swallowed;
  - a failed session insert, which is fatal, but the user row stays;
  - a failed session delete;
  - a failed session lookup in `validateToken`, which the source catches and turns into
    null, so the guard refuses the token.
- **JavaScript objects.** Request bodies and table rows are maps from key to value
  (`Records`). Spread `{ ...a, ...b }` is map union in which `b` wins, and `{ ...a, k: v }`
  is `a[k := v]`.
- **Rows.** A row is its primary key plus the other columns. The model never changes a
  row's key: a body column named like the key is stored as an ordinary column.
- **ORM loops.** The ORM's scans are loops:
  - `findFirst` and `findUnique` are the first-match scan `Seqs.FindFirst`;
  - `findMany` with a filter is `Seqs.Select`;
  - `deleteMany` keeps the rows that do not match.

  Each loop is proved against a recursive specification function.

Some behaviours are proved because a reader may not expect them:

- **The project and team updates.** The gateway sends `{ id, ...body }`. An `id` in the
  body therefore overrides the URL's id and picks the row that is updated
  (`GatewayProjectsController.BodyIdRedirectsUpdate`).
- **A task update.** Here the URL id wins.
- **The user update.** It does not look at who is asking.

## Model

| member | source | states |
|---|---|---|
| `Auth.GenerateTokens` | apps/auth_service/src/auth/auth.service.ts:274-296 | Under sound crypto, both tokens verify to the one claim set `{sub, username, email, roles}`, with lifetimes of 1 hour and 7 days |
| `Auth.Register` | apps/auth_service/src/auth/auth.service.ts:48-147 | Fails with `UserExists` iff some user has the same username or the same email, and then nothing changes. Otherwise: exactly one user is appended (hashed password, status 1); a role link is written iff the role step did not fail and a `user` role exists; exactly one session is appended on success; the reply carries roles `['user']`, `expires_in` 3600, `token_type` `Bearer` and status 201. After the existence check, a failing session write gives `Registration failed` and nothing else does |
| `Auth.Login` | apps/auth_service/src/auth/auth.service.ts:149-230 | The user is looked up by username or email. No user gives `Invalid credentials`. A status other than 1 gives `Account is deactivated`, checked before the password. A wrong password gives `Invalid credentials`. A failing session write after a correct password gives `Login failed`. Failures change nothing. Success appends exactly one session whose token, roles and claims come from the user's role links |
| `Auth.ValidateToken` | apps/auth_service/src/auth/auth.service.ts:232-255 | Returns a payload iff the signature verifies AND the session lookup does not fail AND some session has exactly this token with `expires_at > now`, and that payload is the verified one. Otherwise it returns None (a failing lookup is caught and becomes null) and never fails |
| `Auth.Logout` | apps/auth_service/src/auth/auth.service.ts:257-272 | Removes exactly the sessions with this token, with no signature check, and replies with success and status 200 even when no row matched; a failed delete changes nothing |
| `Auth.RoleNames` | apps/auth_service/src/auth/auth.service.ts:188 | At most one name per link. Which names, and how many, are stated by `Auth.RoleNamesComplete`, `Auth.RoleNamesSound` and `Auth.RoleNamesOnePerLink` |
| `Auth.DefaultRoleLinks` | apps/auth_service/src/auth/auth.service.ts:87-105 | The old links are kept as a prefix and at most one link is added. A link is added iff the step does not fail and some role is named `user`, and the added link joins the new user to such a role |
| `Auth.RoleNamesComplete` | apps/auth_service/src/auth/auth.service.ts:188 | Every role linked to the user appears among the returned role names |
| `Auth.RoleNamesSound` | apps/auth_service/src/auth/auth.service.ts:188 | Every returned role name is the name of a role that one of the user's own links points at |
| `Auth.RoleNamesOnePerLink` | apps/auth_service/src/auth/auth.service.ts:188 | When every link points at an existing role, there is exactly one role name per link of the user, as `map` over the links gives |
| `Auth.RoleNamesOfUnlinked` | apps/auth_service/src/auth/auth.service.ts:188 | A user with no role links gets no role names |
| `Auth.RoleNamesIgnoreOthers` | apps/auth_service/src/auth/auth.service.ts:188 | Links of other users do not change a user's role names |
| `Auth.RegisterPreservesValid` | apps/auth_service/src/auth/auth.service.ts:55-120 | Registration keeps the following: unique usernames and emails; increasing keys below the counters; role links that point at existing users and roles |
| `Auth.LoginPreservesValid` | apps/auth_service/src/auth/auth.service.ts:198-203 | Login keeps the database invariant |
| `Auth.LogoutPreservesValid` | apps/auth_service/src/auth/auth.service.ts:259-261 | Logout keeps the database invariant |
| `Auth.NoUserEnumeration` | apps/auth_service/src/auth/auth.service.ts:172-185 | An unknown login and a wrong password for an active user give the identical failure and leave the database unchanged |
| `Auth.CorrectPasswordLogsIn` | apps/auth_service/src/auth/auth.service.ts:181-196 | For an active user with the right password, login succeeds and the reply lists each of the user's linked role names |
| `Auth.LoginRolesMatchTokenClaims` | apps/auth_service/src/auth/auth.service.ts:188-214 | The access token's claims carry the same roles and user id as the login reply |
| `Auth.LoginTokenValidates` | apps/auth_service/src/auth/auth.service.ts:191-203 | Right after a login, its access token validates to the user who logged in |
| `Auth.RegisterTokenValidates` | apps/auth_service/src/auth/auth.service.ts:108-120 | Right after a registration, its access token validates to the new user |
| `Auth.RoleStepIsBestEffort` | apps/auth_service/src/auth/auth.service.ts:87-105 | A failing default-role step does not change the registration reply |
| `Auth.RoleClaimWithoutRoleRow` | apps/auth_service/src/auth/auth.service.ts:108-131 | When the role step failed, the token and the reply still claim `['user']` while the new user has no role link |
| `Auth.LogoutRevokes` | apps/auth_service/src/auth/auth.service.ts:257-261 | After logout of a token, validating that token gives None, whether or not the lookup fails |
| `Auth.LogoutIdempotent` | apps/auth_service/src/auth/auth.service.ts:259-267 | A second logout of the same token leaves the same sessions and gives the same reply |
| `Auth.LogoutKeepsOtherTokens` | apps/auth_service/src/auth/auth.service.ts:259-261 | Logout does not change the validation of any other token |
| `Auth.LoginKeepsEarlierTokens` | apps/auth_service/src/auth/auth.service.ts:298-314 | A login only adds sessions, so a token that validated before still validates |
| `AuthService.AuthService.SaveUserSession` | apps/auth_service/src/auth/auth.service.ts:298-314 | Appends exactly one session with both tokens and `expires_at = now + 3600`, and leaves the other tables alone |
| `AuthService.AuthService.CreateUser` | apps/auth_service/src/auth/auth.service.ts:71-84 | Appends exactly one user under the next key, with the given username, email and hashed password and status 1 |
| `AuthService.AuthService.AttachDefaultRole` | apps/auth_service/src/auth/auth.service.ts:87-105 | Links the new user to the first role named `user` when the step does not fail and such a role exists; otherwise the links are unchanged |
| `AuthService.AuthService.Register` | apps/auth_service/src/auth/auth.service.ts:48-147 | The class's inserts give exactly the state and reply of `Auth.Register` and keep the invariant |
| `AuthService.AuthService.Login` | apps/auth_service/src/auth/auth.service.ts:149-230 | The class's lookup and session insert give exactly the state and reply of `Auth.Login` and keep the invariant |
| `AuthService.AuthService.CollectRoleNames` | apps/auth_service/src/auth/auth.service.ts:188 | The loop over role links returns exactly the role names `Auth.RoleNames` specifies for the user |
| `AuthService.AuthService.ValidateToken` | apps/auth_service/src/auth/auth.service.ts:232-255 | Read-only: returns what `Auth.ValidateToken` returns on the current tables, for the same lookup-failure flag |
| `AuthService.AuthService.Logout` | apps/auth_service/src/auth/auth.service.ts:257-272 | The delete loop leaves exactly the sessions with other tokens and keeps the invariant |
| `Seed.EnsureRole` | apps/auth_service/prisma/seed.ts:7-27 | One find-then-create step: afterwards a role of that name exists and every earlier role is kept; nothing changes iff such a role existed, and otherwise exactly one role with the next key and the given description and permissions is appended |
| `Seed.SeedRoles` | apps/auth_service/prisma/seed.ts:5-51 | Afterwards roles named `user` and `admin` both exist. The rest is stated by `Seed.SeedResult`, `Seed.SeededPermissions` and `Seed.SeedIdempotent` |
| `Seed.SeedResult` | apps/auth_service/prisma/seed.ts:5-51 | After the script, roles `user` and `admin` exist. Existing roles are an unchanged prefix, at most two roles are added, and nothing but the role table and its counter changes |
| `Seed.SeededPermissions` | apps/auth_service/prisma/seed.ts:12-46 | On a table with neither role, the script appends `user` then `admin` under consecutive keys, with exactly the listed descriptions and the permission lists as the JSON strings `JSON.stringify` produces |
| `Seed.SeedIdempotent` | apps/auth_service/prisma/seed.ts:5-51 | Running the script twice gives the same database as running it once |
| `Seed.EnsureRolePreservesValid` | apps/auth_service/prisma/seed.ts:11-23 | Creating a role keeps the database invariant |
| `Seed.SeedPreservesValid` | apps/auth_service/prisma/seed.ts:5-51 | The script keeps the database invariant |
| `Seed.RunSeed` | apps/auth_service/prisma/seed.ts:5-51 | The imperative script, run against the auth store's tables, leaves exactly the state `SeedRoles` describes |
| `BearerToken.IndexOf` | apps/client_gateway/src/auth/guards/jwt-auth.guard.ts:26 | The first position at which the pattern occurs, or None when it occurs nowhere |
| `BearerToken.RemoveFirst` | apps/client_gateway/src/auth/guards/jwt-auth.guard.ts:26 | String `replace` with a string pattern: only the first occurrence is cut out, and the text is unchanged when there is none |
| `BearerToken.ExtractToken` | apps/client_gateway/src/auth/guards/jwt-auth.guard.ts:26 | The header comes back unchanged iff it holds no `"Bearer "`; otherwise exactly those seven characters are cut. The auth controller's validate and logout routes strip the header the same way |
| `BearerToken.ExtractFromBearerHeader` | apps/client_gateway/src/auth/guards/jwt-auth.guard.ts:26 | `"Bearer " + t` yields `t` |
| `BearerToken.HeaderWithoutSchemeUnchanged` | apps/client_gateway/src/auth/guards/jwt-auth.guard.ts:26 | A header without `"Bearer "` is passed on unchanged as the token |
| `BearerToken.RemovalIsNotAnchored` | apps/client_gateway/src/auth/guards/jwt-auth.guard.ts:26 | `"xBearer abc"` yields `"xabc"`: the removal is not tied to the start |
| `BearerToken.OnlyFirstOccurrenceRemoved` | apps/client_gateway/src/auth/guards/jwt-auth.guard.ts:26 | `"Bearer Bearer t"` yields `"Bearer t"` |
| `JwtAuthGuard.Authorize` | apps/client_gateway/src/auth/guards/jwt-auth.guard.ts:18-43 | A missing header is rejected with `Authorization header is required` and nothing is sent. Otherwise exactly one validation request carries the extracted token. A payload admits. An empty reply and a failed call are both rejected with `Invalid or expired token` |
| `JwtAuthGuard.CanActivate` | apps/client_gateway/src/auth/guards/jwt-auth.guard.ts:18-43 | Decides as `Authorize` does, and writes the payload to `request.user` on the allow path only |
| `JwtAuthGuard.UnreachableLooksLikeInvalid` | apps/client_gateway/src/auth/guards/jwt-auth.guard.ts:40-42 | An unreachable validator gives the same verdict as a rejected token |
| `JwtAuthGuard.GuardRejectsLoggedOutToken` | apps/client_gateway/src/auth/guards/jwt-auth.guard.ts:28-35 | After logout, the guard rejects the token with `Invalid or expired token` |
| `JwtAuthGuard.LookupFailureRejects` | apps/auth_service/src/auth/auth.service.ts:250-253 | When the auth service's session lookup throws, its caught null makes the guard refuse every bearer token with `Invalid or expired token`, even one with a live session |
| `JwtAuthGuard.GuardAdmitsFreshLogin` | apps/client_gateway/src/auth/guards/jwt-auth.guard.ts:26-39 | `Bearer <fresh login token>` is admitted, and the request's user is the one who logged in |
| `GatewayAuthController.Handle` | apps/client_gateway/src/auth/auth.controller.ts:22-88 | Login and register forward the body unchanged. Validate-token and logout throw `Authorization header is required` iff the header is missing, and otherwise send exactly `{ token }` |
| `GatewayAuthController.BearerHeaderSendsToken` | apps/client_gateway/src/auth/auth.controller.ts:57-60 | A `Bearer <t>` header sends exactly `{ token: t }` |
| `GatewayAuthController.MissingHeaderIsBadRequest` | apps/client_gateway/src/auth/auth.controller.ts:53-55 | The missing-header error reaches the client through the exception filter as a 400 |
| `RpcExceptionFilter.ParseDecimal` | apps/client_gateway/src/common/exceptions/rpc-custom-exception.filter.ts:28-30 | A digit string gives its positional value (`DigitsValue`, leading zeros included), and any other string gives None (NaN) |
| `RpcExceptionFilter.ParseDecimalString` | apps/client_gateway/src/common/exceptions/rpc-custom-exception.filter.ts:28-30 | Parsing the decimal spelling of n gives n |
| `RpcExceptionFilter.DigitsValueSnoc` | apps/client_gateway/src/common/exceptions/rpc-custom-exception.filter.ts:28-30 | The positional value of a digit string is ten times the value of its prefix plus its last digit, which ties the right-to-left parse to the positional definition |
| `RpcExceptionFilter.LeadingZeroIgnored` | apps/client_gateway/src/common/exceptions/rpc-custom-exception.filter.ts:28-30 | A leading zero does not change the parsed number ("007" is 7) |
| `RpcExceptionFilter.ToNumber` | apps/client_gateway/src/common/exceptions/rpc-custom-exception.filter.ts:28-30 | Unary `+` on a status: null gives 0, booleans give 1 or 0, undefined gives NaN, and a string is parsed |
| `RpcExceptionFilter.StatusCode` | apps/client_gateway/src/common/exceptions/rpc-custom-exception.filter.ts:25-30 | A number in [100, 599] is used as is; a status coercing to NaN gives 400; any other coerced number is used unclamped |
| `RpcExceptionFilter.Catch` | apps/client_gateway/src/common/exceptions/rpc-custom-exception.filter.ts:13-46 | An object with both `status` and `message` gets the computed code and a body echoing code, status and message. Anything else gets 400 with the raw error and `Bad Request` |
| `RpcExceptionFilter.NumericStatusPassesThroughUnclamped` | apps/client_gateway/src/common/exceptions/rpc-custom-exception.filter.ts:25-31 | Every numeric status, even outside [100, 599], becomes the response code |
| `RpcExceptionFilter.NumericStringStatusPassesThrough` | apps/client_gateway/src/common/exceptions/rpc-custom-exception.filter.ts:28-31 | A digit-string status such as `"404"` or `"700"` becomes that code |
| `RpcExceptionFilter.NaNStatusGives400` | apps/client_gateway/src/common/exceptions/rpc-custom-exception.filter.ts:28-36 | A non-numeric status gives 400, and the body still echoes the original status |
| `RpcExceptionFilter.MissingKeyFallsBack` | apps/client_gateway/src/common/exceptions/rpc-custom-exception.filter.ts:39-45 | An object missing `status` or `message` gets the fallback 400 body |
| `Pagination.PageOf` | apps/task_service/src/tasks/tasks.service.ts:46 | A missing page defaults to 1 |
| `Pagination.LimitOf` | apps/task_service/src/tasks/tasks.service.ts:46 | A missing limit defaults to 10 |
| `Pagination.Skip` | apps/task_service/src/tasks/tasks.service.ts:49 | The offset is a whole number of pages: exactly `page - 1` pages of `limit` rows |
| `Pagination.CeilDiv` | apps/task_service/src/tasks/tasks.service.ts:58 | `totalPages` is the least number of pages of `limit` rows that hold `total` rows |
| `Pagination.Window` | apps/task_service/src/tasks/tasks.service.ts:48-51 | The rows from `skip` on, at most `limit` of them, in table order |
| `Pagination.Meta` | apps/task_service/src/tasks/tasks.service.ts:54-59 | The meta block echoes total, page and limit, with `totalPages = ceil(total / limit)` |
| `Pagination.PageNonEmptyIffWithinTotalPages` | apps/task_service/src/tasks/tasks.service.ts:209-220 | A page holds rows iff its number is at most `totalPages` |
| `Seqs.FindFirst` | apps/auth_service/src/auth/auth.service.ts:55-59 | The `findFirst` scan returns the first matching index, or None iff nothing matches |
| `Seqs.Select` | apps/auth_service/src/auth/auth.service.ts:259-261 | The filtering scan keeps exactly the matching rows, in order |
| `Seqs.FilterIdempotent` | apps/auth_service/src/auth/auth.service.ts:259-261 | Filtering a second time by the same condition removes nothing |
| `Records.Omit` | apps/task_service/src/tasks/tasks.service.ts:98 | Rest destructuring drops `id` and keeps every other key with its value |
| `Records.NumberAt` | apps/project_service/src/projects/projects.service.ts:98 | The id an update message carries, when it is a number |
| `Records.Overriding` | apps/client_gateway/src/tasks/tasks.controller.ts:55-58 | `{ ...body, k: v }` has `k = v`, and every other key of the body with its value |
| `Records.Spread` | apps/client_gateway/src/projects/projects.controller.ts:81 | `{ ...a, ...b }` has the keys of both, and `b`'s value where both have one |
| `Tables.Lookup` | apps/task_service/src/tasks/tasks.service.ts:89-91 | `findUnique` by key finds a row with that key, or None iff no row has it |
| `Tables.UpdateById` | apps/task_service/src/tasks/tasks.service.ts:100-103 | Only the row with the key changes, and its columns become old columns overwritten by the data. The number of rows and every key are kept |
| `Tables.UpdateKeepsUniqueIds` | apps/task_service/src/tasks/tasks.service.ts:100-103 | An update keeps keys unique |
| `Tables.LookupAfterUpdate` | apps/task_service/src/tasks/tasks.service.ts:100-107 | Reading the updated row back gives the old columns overwritten by the data |
| `Tables.LookupOtherAfterUpdate` | apps/task_service/src/tasks/tasks.service.ts:100-103 | Every other row reads back unchanged |
| `Tables.FindById` | apps/task_service/src/tasks/tasks.service.ts:89-91 | The scan for a key returns what `Lookup` specifies |
| `TasksService.TaskHistory` | apps/task_service/src/tasks/tasks.service.ts:209-216 | Lists exactly that task's history rows: each listed row belongs to the task and is in the table, and every row of the task is listed. The order is stated by `TasksService.NewestFirst` |
| `TasksService.FilterKeepsChronological` | apps/task_service/src/tasks/tasks.service.ts:211-213 | Selecting one task's rows keeps their time order |
| `TasksService.NewestFirst` | apps/task_service/src/tasks/tasks.service.ts:211-216 | A task's history listing is ordered by `created_at`, newest first |
| `TasksService.AppendedEntryComesFirst` | apps/task_service/src/tasks/tasks.service.ts:161-167 | A history row just written heads its task's listing, followed by the older ones |
| `TasksService.AppendedEntryInvisibleElsewhere` | apps/task_service/src/tasks/tasks.service.ts:140-146 | A history row for one task does not change another task's listing |
| `TasksService.TasksService.FindAllTasks` | apps/task_service/src/tasks/tasks.service.ts:43-67 | One page of all tasks, with the meta block over the whole table and status 200 |
| `TasksService.TasksService.UpdateTask` | apps/task_service/src/tasks/tasks.service.ts:83-113 | A missing id gives `Task with ID <id> not found` and nothing changes. Otherwise only that task is updated, with `id` stripped from the data, and the updated row is returned |
| `TasksService.TasksService.FindOne` | apps/task_service/src/tasks/tasks.service.ts:115-129 | Fails with `Task not found` iff no task has the id; otherwise returns the row with that id |
| `TasksService.TasksService.AssignTask` | apps/task_service/src/tasks/tasks.service.ts:131-153 | Appends exactly one assignment `(task, user, assigned_by)` and one `assigned` history row whose `changed_by` is the assignee. Replies with status 201 |
| `TasksService.TasksService.CompleteTask` | apps/task_service/src/tasks/tasks.service.ts:155-174 | A missing task fails and nothing changes. Otherwise the status becomes `completed` and exactly one `completed` history row by `userId` is appended. The returned row is the stored row: the old columns with `status` overridden |
| `TasksService.TasksService.GetAllTasksByProjectId` | apps/task_service/src/tasks/tasks.service.ts:176-203 | The page and the total both cover only the tasks of that project |
| `TasksService.TasksService.GetAllTaskHistory` | apps/task_service/src/tasks/tasks.service.ts:205-239 | Newest first. It fails with `No history found` iff the page number is past `totalPages`, including when that task has history; otherwise it returns that page and the meta block |
| `ProjectsService.Membership` | apps/project_service/src/projects/projects.service.ts:138-145 | The composite-key lookup finds the membership of that pair, or None iff there is none |
| `ProjectsService.JoinKeepsPairsUnique` | apps/project_service/src/projects/projects.service.ts:137-159 | Adding a pair that is not a member keeps (project, user) pairs unique |
| `ProjectsService.JoinedMemberListed` | apps/project_service/src/projects/projects.service.ts:153-159 | A new member is listed last for its project and not at all for other projects |
| `ProjectsService.ProjectsService.FindAllProjects` | apps/project_service/src/projects/projects.service.ts:46-70 | One page of all projects, with the meta block |
| `ProjectsService.ProjectsService.FindOneProject` | apps/project_service/src/projects/projects.service.ts:72-80 | Fails with `Project with ID <id> not found` iff no project has the id. In the source it is called only from update and join, as here |
| `ProjectsService.ProjectsService.UpdateProject` | apps/project_service/src/projects/projects.service.ts:95-112 | Takes the key from the message. It checks existence before writing, then updates only that project with `id` stripped; failures change nothing |
| `ProjectsService.ProjectsService.GetAllProjectMembers` | apps/project_service/src/projects/projects.service.ts:114-127 | Exactly the memberships of that project, in order |
| `ProjectsService.ProjectsService.JoinProjectMember` | apps/project_service/src/projects/projects.service.ts:129-166 | A missing project fails, and an existing (project, user) pair fails with `already a member`; both leave memberships unchanged. Otherwise exactly one membership with the given role is appended, and pairs stay unique |
| `UsersService.InsertFresh` | apps/user_service/src/users/users.service.ts:115-120 | A row inserted under the next key keeps keys unique, reads back, and leaves every other lookup unchanged |
| `UsersService.UsersService.FindAllUsers` | apps/user_service/src/users/users.service.ts:20-48 | One page of users, with the meta block |
| `UsersService.UsersService.FindAllTeams` | apps/user_service/src/users/users.service.ts:79-103 | One page of teams, with the meta block |
| `UsersService.UsersService.FindOneUser` | apps/user_service/src/users/users.service.ts:50-58 | Fails with `User with ID <id> not found` iff no user has the id |
| `UsersService.UsersService.FindOneTeam` | apps/user_service/src/users/users.service.ts:105-113 | Fails with `Team with ID <id> not found` iff no team has the id |
| `UsersService.UsersService.UpdateUser` | apps/user_service/src/users/users.service.ts:60-77 | Checks existence first, strips `id`, and changes only that user; failures change nothing |
| `UsersService.UsersService.CreateTeam` | apps/user_service/src/users/users.service.ts:115-120 | Creates exactly one team, under the next key, from the given data; every other team reads back unchanged |
| `UsersService.UsersService.UpdateTeam` | apps/user_service/src/users/users.service.ts:122-139 | Checks existence first, strips `id`, and changes only that team; failures change nothing |
| `GatewayTasksController.Route` | apps/client_gateway/src/tasks/tasks.controller.ts:34-217 | The message each task route sends. It has no contract of its own: its properties are `GatewayTasksController.CreatorIsCaller`, `UpdateTargetsUrlTask`, `AssignerIsCaller`, `CompleterIsCallerAndQueriesForwarded` and `OwnListingsAreCallers` |
| `GatewayTasksController.CreatorIsCaller` | apps/client_gateway/src/tasks/tasks.controller.ts:55-58 | `created_by` is the token's `sub` whatever the body says, and the other body keys pass through |
| `GatewayTasksController.UpdateTargetsUrlTask` | apps/client_gateway/src/tasks/tasks.controller.ts:93-97 | The update names the URL's task even when the body has another `id`. Once `id` is stripped, the data is the body plus `updated_by = sub` |
| `GatewayTasksController.AssignerIsCaller` | apps/client_gateway/src/tasks/tasks.controller.ts:116-121 | `assigned_by` is the caller; the URL id goes alongside; `user_id` is the body's |
| `GatewayTasksController.CompleterIsCallerAndQueriesForwarded` | apps/client_gateway/src/tasks/tasks.controller.ts:138-139 | Completion sends the URL id and the caller as `userId`, and the listings forward their query unchanged |
| `GatewayTasksController.OwnListingsAreCallers` | apps/client_gateway/src/tasks/tasks.controller.ts:193-210 | `my-tasks` and `assigned-to-me` send `userId = sub`, overriding a client `userId`, and pass the pagination fields through |
| `GatewayProjectsController.Route` | apps/client_gateway/src/projects/projects.controller.ts:36-157 | The message each project route sends. It has no contract of its own: its properties are `GatewayProjectsController.CreatorIsCaller`, `UpdateTargetsBodyIdFirst`, `BodyIdRedirectsUpdate`, `JoinEnrolsCaller` and `OwnListingIsCallers` |
| `GatewayProjectsController.CreatorIsCaller` | apps/client_gateway/src/projects/projects.controller.ts:55-58 | `created_by` is the token's `sub` whatever the body says |
| `GatewayProjectsController.UpdateTargetsBodyIdFirst` | apps/client_gateway/src/projects/projects.controller.ts:75-81 | The updated project is the body's `id` when present and the URL's otherwise. `updated_by` is the caller |
| `GatewayProjectsController.BodyIdRedirectsUpdate` | apps/client_gateway/src/projects/projects.controller.ts:75-81 | A PATCH on project 1 with body `{ id: 2 }` targets project 2 |
| `GatewayProjectsController.JoinEnrolsCaller` | apps/client_gateway/src/projects/projects.controller.ts:112-119 | A join always enrols the caller in the URL's project; the role is the body's |
| `GatewayProjectsController.OwnListingIsCallers` | apps/client_gateway/src/projects/projects.controller.ts:145-150 | `my-projects` sends `userId = sub` after the pagination fields, and the full listing forwards its query unchanged |
| `GatewayUsersController.Route` | apps/client_gateway/src/users/users.controller.ts:32-132 | The message each user route sends, or the profile answered on the spot. It has no contract of its own: its properties are `GatewayUsersController.ProfileFromClaims`, `ProfileAfterLogin`, `UpdateUserIgnoresCaller`, `TeamCreatorIsCaller` and `TeamUpdateTargetsBodyIdFirst` |
| `GatewayUsersController.ProfileFromClaims` | apps/client_gateway/src/users/users.controller.ts:33-43 | The profile is answered on the spot from the claims (`user_id = sub`, username, email, roles) with status 200 |
| `GatewayUsersController.ProfileAfterLogin` | apps/client_gateway/src/users/users.controller.ts:33-43 | The profile served for a fresh login token shows that login's user id and roles |
| `GatewayUsersController.UpdateUserIgnoresCaller` | apps/client_gateway/src/users/users.controller.ts:63-73 | A user update is the same message whoever sends it, and targets the body's `id` before the URL's |
| `GatewayUsersController.TeamCreatorIsCaller` | apps/client_gateway/src/users/users.controller.ts:102-105 | `created_by` is the caller whatever the body says |
| `GatewayUsersController.TeamUpdateTargetsBodyIdFirst` | apps/client_gateway/src/users/users.controller.ts:121-126 | The updated team is the body's `id` when present and the URL's otherwise. `updated_by` is the caller |

## Left out

- **bcrypt and JWT.** Cost factors, signature algorithms and token encoding are not
  modelled. Crypto is a parameter, and `Auth.Sound` states the only assumptions made
  about it.
- **Transport.**
  - Not modelled: `ClientProxy.send`, the 10-second timeouts, `catchError` rewrapping, and
    the message-pattern dispatch controllers of the services.
  - Errors are datatypes, so an RpcException wrapped inside another, as `updateTask`
    does, is not modelled.
  - The gateway sends `findUserTasks`, `findAssignedTasks`, `findUserProjects` and
    `findOneProject`, but no message handler in the modelled code takes them. The project
    service has a `findOneProject` method, but its message controller has no pattern for it.
    Only the payload is modelled. `GatewayProjectsController.Route` maps `FindOne` to a
    `FindOneProject` message that nothing answers.
- **Creating tasks and projects in the services.** `create` in the tasks service and
  `createProjectService` in the project service are single inserts without checks. They are
  outside this model; the gateway's payload shaping for them is modelled.
- **Other storage failures.** These are not modelled: a failing password hash or user
  insert during registration; a failing ORM lookup during login; database errors in the
  task, project and user services. Two of these are ordinary inputs on which the model
  reports success and the source fails. `TasksService.TasksService.AssignTask` appends an
  assignment and a history row even when the pair (task, user) is already assigned, which
  breaks the assignment table's unique key. It does so too when the task does not exist,
  which breaks its foreign key to Task. The default-role lookup and the link insert share one
  failure flag, because the source swallows both alike.
- **Relations and columns.**
  - The update methods strip only `id` from the body. A body that carries the key column's
    own name (`task_id`, `user_id`, `team_id` or `project_id`) reaches the ORM's update
    data, which would change the row's key or collide with another row's key in the source.
    `Tables.UpdateById` keeps the key and stores such a column as an ordinary one.
  - `include` clauses are not modelled: the rows come back without their joined records.
  - The database schema is not part of this model. New users get status 1, assumed to be
    the column default.
  - Updates and inserts accept any key. A write to a column the schema lacks would make the
    ORM throw.
  - The generated clients show no `updated_by` column on Task, and neither `created_by` nor
    `updated_by` on Team. Yet the gateway adds `updated_by` to every task update and every
    team update, and `created_by` to every team creation. So those three gateway routes
    always fail in the source. `TasksService.TasksService.UpdateTask`,
    `UsersService.UsersService.UpdateTeam`, `UsersService.UsersService.CreateTeam` and
    `GatewayUsersController.TeamCreatorIsCaller` model the path taken when the columns
    exist, not the usual outcome.
  - The project service's entity class declares neither `created_by` nor `updated_by`, and
    the gateway adds them to every project creation and update. The project database schema
    is not part of this model, so whether those two routes fail is unknown.
    `GatewayProjectsController.CreatorIsCaller` and
    `GatewayProjectsController.UpdateTargetsBodyIdFirst` describe the payload sent, and
    `ProjectsService.ProjectsService.UpdateProject` the path taken when the columns exist.
- **Dates.** Times are integer seconds, so `setHours(+1)` is `+ 3600`, ignoring daylight
  saving.
- `TasksService.TasksService.AssignTask`, `TasksService.TasksService.CompleteTask`: they
  require a clock that does not go back (`NotBefore`). Rows with equal `created_at` are
  listed in reverse insertion order; the database leaves the order of ties unspecified.
- `Pagination.Window`, `Pagination.Meta` and the listing methods: they
  require `page >= 1` and `limit >= 1`. The pagination DTO's validation lives in a shared
  package that is not part of this model. With `limit = 0` the source's `Math.ceil(total / 0)`
  is a float infinity or NaN, which is not modelled.
- `RpcExceptionFilter.ToNumber`: it models JavaScript's unary `+` on strings only for
  decimal digit strings. The empty string, whitespace, signs, fractions, exponents and
  hex literals are treated as NaN, although JavaScript turns some of them into numbers.
  Floating-point statuses are not modelled.
- **Concurrency.** Every operation is atomic and the operations run one after another. The
  gap between the signature check and the session lookup, and concurrent registrations
  with the same username, are not modelled.
- **Logging.** All logging and console output is left out.
