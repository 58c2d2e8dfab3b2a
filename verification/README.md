# Verified model of a VPN hub: billing, address space, gateways

This project models the core of a VPN reselling platform and proves what it keeps over whole runs.
The platform has a control plane (a Postgres database driven by TypeScript services and a worker)
and one agent per gateway (Go) that drives WireGuard, GRE and SSTP. Four parts are modelled:

- **Money and items.** Wallets, an append-only ledger with idempotency keys, tunnels, single
  addresses, address blocks and credit codes; a billing tick that charges, suspends and cancels.
- **IPv4 address space.** Pools, sale plans, the searches for free addresses and aligned blocks,
  ownership and attachment, pool counters, and the GRE /30 allocator, with JavaScript's 32-bit shifts.
- **Reconciliation.** The WireGuard agent as metadata, kernel AllowedIPs and routes, the drift loop
  that compares and repairs it, and the GRE twin over interfaces and static routes.
- **Counters and restart.** The traffic sampler, and the SSTP backend's credential, route, key and
  rate files with the restart that reads them back.

`dafny verify dfyconfig.toml` checks everything.

| files | content |
|---|---|
| `Ledger`, `Tables`, `Runs`, `Reachable` | wallets and ledger; every transaction as a function; runs of any interleaving; what holds from the empty database on |
| `Effects`, `Prices`, `Ticks` | what each transaction does, column by column, and when it goes through; which price a renewal takes over runs; a tick row by row and its report |
| `Placement`, `SalePlans`, `Grouping` | ownership and counters; plans and searches; CIDR lists and their meaning |
| `Moves`, `Follow`, `GreGrouping` | moves of addresses and blocks all the way to an agent; an agent that follows the database over runs; the same meaning for GRE links |
| `Renewals`, `Grace`, `Scheduler`, `CatchUp`, `Service` | cycles, grace, the tick, catching up over ticks; the control plane as a class with the tables as fields |
| `Agent`, `Lifecycle`, `Coherence`, `Drift` | the WireGuard agent as a class, what each request does to it, its runs, the drift pass |
| `GreAlloc`, `GreDrift` | GRE point-to-point allocation; GRE drift and its agent as a class |
| `Codes`, `CodeRows`, `Traffic` | code redemption, what it writes and why it refuses; the sampler |
| `SstpText`, `HostLists`, `Sstp`, `SstpRequests` | text handling with its round trips; host lists; the SSTP manager and its files; what each request leaves in memory and after restarts |
| `Common` | options, intervals, enumeration, powers of two, sums of maps |

Code that updates state is modelled as classes (`Service.ControlPlane`, `Agent.KernelManager`,
`GreDrift.GreAgent`, `Codes.CodesService`, `Traffic.Sampler`, `Sstp.SstpManager`) whose methods are
proved equal to specification functions or relations; the theorems are about those. What the
specification functions themselves do is stated apart, on the tables, the AllowedIPs, the routes and the
files, in `Effects`, `Lifecycle`, `SstpRequests` and `CodeRows`.

## What a run is

Each database transaction is one atomic step; a refused transaction changes nothing. A run is any
sequence of steps. Four conditions on runs appear as hypotheses, and each has a lemma that shows
what goes wrong without it:

- `Timely`: a tick charges an item that is due and cancels one that is expired when its row lock is
  taken. `chargeOne...` does not check this again under the lock, so the condition stands for ticks
  that overlap neither each other nor a tier change nor the release of what they selected.
  `Scheduler.TickIsTimelyRun` proves it for a whole tick that runs alone; `Renewals.OverlapStarves`
  shows two overlapping ticks and a tier change that leave a tunnel which is never billed again, and
  `Runs.ReleaseThenCharge` a released block that is charged.
- `Careful`: `buyPublicIp` is not pointed at somebody's suspended address, which it does not refuse
  (it refuses only allocated rows, so reserved and blacklisted ones pass too). The pool counters need
  this (`Placement.ClaimIpCountedIff`); grace needs only that this very address is not bought while it
  carries a suspension date (`Grace.BuyIpGraceIff`, `Grace.BoughtSuspendedIsCancelled`), and grace for
  tunnels and blocks needs neither.
- `Orderly`: an agent is not given a prefix that another of its peers still records
  (`Coherence.UpdateCoherentIff`, `Coherence.GainerFirstLosesRoute`).
- `Clashfree`: no SSTP user's name is another user's key, rate or temporary file
  (`Sstp.ClashLosesKey`).

Agent idempotency keys are taken to be fresh, so every call to an agent executes. Times are
milliseconds and money is satang, both unbounded integers; a renewal key's calendar day is the day
number, which is the same for the years 0 to 9999 that its ten-character date text covers.

The empty database meets every invariant, so the theorems about runs hold of all states reachable from
it (`Reachable.ReachableInOrder`).

## Findings

Properties one might expect that the code does not have, each with an input that shows it and the
exact condition under which the property holds:

- After a drift pass the kernel routes need not be the wanted ones: a prefix handed from a tunnel
  later in the query's order, or from an orphan, to an earlier tunnel loses its route
  (`Drift.LateHandoverExample`, `Drift.RoutesRightIff`), and since drift compares metadata only, no
  later pass restores it (`Drift.LostRouteStaysLost`).
- A suspended peer whose metadata already matches is skipped by drift and stays cut off
  (`Drift.SuspendedStaysBlocked`); from a coherent agent a tunnel ends with the AllowedIPs it wants
  exactly when it is pushed or its peer is not suspended (`Drift.DataPlaneIff`).
- An `UpdatePeer` for an unknown key with unreadable addresses leaves metadata behind
  (`Drift.UpdateLeavesGhost`) that makes every later pass fail on that key (`Drift.GhostStays`,
  `Drift.PassSucceedsIff`).
- Moving an address off a suspended tunnel pushes that tunnel's list, and the push re-creates a peer
  that drift had removed, until the next pass (`Moves.RevivedExample`). A tunnel without a peer gets one
  this way exactly when it is not deleted (`Moves.MoveIpRevivesIff`, `Moves.MoveBlockRevivesIff`).
- A block released between a tick's selection and its row lock is billed or suspended like a live one, so
  its row is live again over addresses that are for sale (`Runs.ReleaseThenChargeExample`); a charge that
  acts keeps ownership exactly when it is not for a block that is no longer live (`Runs.ChargeSoundIff`).
- Two GRE tunnels that swapped addresses block each other over every sequence of passes: a patch adds
  routes before it removes any, and the kernel refuses a destination that exists
  (`GreDrift.SwapExample`, `GreDrift.SwapStuckForever`). A pass succeeds in every order exactly when no
  route to be added is on another link (`GreDrift.SucceedsInEveryOrderIff`).
- `max_uses_per_user` above one has no effect: the idempotency key names only the code and the user,
  so the second redemption fails on the unique index (`Codes.SecondUseExample`, `Codes.RedeemIff`).
- A redemption marks a code exhausted only when its cap is one; higher caps are enforced by the counter
  while the status stays active (`Codes.ExhaustedIff`).
- Deleting GRE tunnels never frees their /30, so a gateway can provision only as many tunnels in its
  life as its subnet has /30s (`GreAlloc.ExhaustedIff`). The search looks at gateway ends only
  (`GreAlloc.SecondHostIgnored`); the /30 it finds is free of addresses in use exactly when its other
  three addresses are (`GreAlloc.FoundFreeIff`).
- SSTP's `UpdatePeer` accepts an empty private address; after a restart an updated active peer is there
  exactly when its address is not empty (`Sstp.UpdateSurvivesIff`).
- Two overlapping ticks and a tier change leave a tunnel that is never billed again
  (`Renewals.OverlapStarves`, `Renewals.StarvedForever`); a charge keeps renewal keys behind the billing
  date exactly when the cycle it pays has begun (`Renewals.ChargeBehindIff`).
- `1 << (32 - prefix)` is the number of addresses exactly for prefixes of two and more
  (`SalePlans.CidrSizeIff`).

The comment at the head of the traffic sampler says that a second insert into a bucket is ignored; the
statement adds to the bucket, and the model follows the statement.

## Model

| member | source | states |
|---|---|---|
| Runs.LedgerConserved | packages/provisioning/src/billing-scheduler.ts:194-216 | over every run of all money steps each balance is the sum of its ledger rows, equals topped up minus spent, is never negative, every row carries the running balance, and no idempotency key occurs twice |
| Ledger.PostKeeps | packages/provisioning/src/provision.ts:118-132 | the wallet update and ledger row of a money step, with an unused key and enough balance, keep that invariant |
| Effects.PostIs | packages/provisioning/src/billing-scheduler.ts:194-216 | a money step moves one wallet by the amount, counts it as topped up or spent, and appends one row with the amount, the new balance and the key |
| Effects.DebitDoes | packages/provisioning/src/provision.ts:118-132 | a purchase is paid exactly when the balance covers the price and the key is free, and takes exactly the price |
| Effects.ChargeTakes | packages/provisioning/src/billing-scheduler.ts:156-349 | a charge takes the price locked in the row whatever the catalog says, and the catalog's only when the row has none; it suspends exactly when the balance is below that price; every column of the row, the wallet and the ledger is stated |
| Effects.ChargeSkips | packages/provisioning/src/billing-scheduler.ts:169-192 | and in every other case it changes nothing: no owner, deleted, a member of a block, no wallet, no price |
| Effects.CancelTunnelDoes | packages/provisioning/src/billing-scheduler.ts:456-480 | a cancelled tunnel's row is closed without grace dates; its addresses are detached when one of them is allocated |
| Effects.CancelIpDoes | packages/provisioning/src/billing-scheduler.ts:505-530 | a cancelled address is nobody's, attached to nothing, and its pool has one more |
| Effects.CancelBlockDoes | packages/provisioning/src/billing-scheduler.ts:570-600 | a cancelled block is closed, exactly its member rows are freed, and its pool gets its size back |
| Effects.BuyTunnelDoes | packages/provisioning/src/provision.ts:64-140 | a tunnel is sold exactly for a new id, enough credit and a free key, at one debit; the row locks the price paid and is due one cycle later |
| Effects.ActivateDoes | packages/provisioning/src/activate.ts:32-54 | activation turns exactly a provisioning tunnel into an active one |
| Effects.ChangeTierDoes | packages/provisioning/src/change-tier.ts:58-150 | when a tier change goes through, and that with a free key the new tier is stored, its price is paid and locked in, the cycle restarts and the suspension is lifted |
| Effects.DeleteTunnelDoes | packages/provisioning/src/delete-tunnel.ts:13-55 | the owner's tunnel is deleted exactly when no allocated address is attached to it |
| Effects.DeleteGreTunnelDoes | packages/provisioning/src/gre.ts:372-404 | the GRE delete detaches the tunnel's addresses instead, and they stay with their owner |
| Effects.BuyIpDoes | packages/provisioning/src/public-ip.ts:132-208 | a single is sold exactly when it is inside the pool, sold there as a single, not allocated and paid for; row, seat, counters and debit are stated |
| Effects.GrantIpDoes | packages/provisioning/src/admin-grant.ts:26-64 | a single is granted exactly when its row is free or absent, and no money moves |
| Effects.MoveIpDoes | packages/provisioning/src/public-ip.ts:254-302 | exactly the user's allocated single goes to exactly the named active tunnel |
| Effects.ReleaseIpDoes | packages/provisioning/src/public-ip.ts:328-363 | exactly a detached single of the user becomes nobody's, and its pool has one more |
| Effects.BuyBlockIff | packages/provisioning/src/ip-block.ts:125-225 | a chosen window is sold exactly for a size on sale, a window its pool offers, enough credit and a free key |
| Effects.BuyBlockDoes | packages/provisioning/src/ip-block.ts:183-225 | one debit of the price, the block's row with that price locked in, exactly the window's addresses as members, and the counters |
| Effects.GrantBlockIff | packages/provisioning/src/admin-grant.ts:80-128 | a block is granted exactly when its size is on sale, it is aligned and inside the pool, and none of its addresses is in use |
| Effects.GrantBlockDoes | packages/provisioning/src/admin-grant.ts:105-135 | a grant writes the rows of a purchase without the debit |
| Effects.MoveBlockDoes | packages/provisioning/src/ip-block.ts:243-284 | every member of exactly this block goes to the named active tunnel |
| Effects.ReleaseBlockDoes | packages/provisioning/src/ip-block.ts:319-355 | a block with no attached member is closed, its members are freed and its pool gets its size back |
| Effects.AdjustCreditDoes | apps/api/src/admin/admin.controller.ts:360-391 | an adjustment by any amount but zero that leaves the balance non-negative, and nothing else |
| Effects.RedeemCreditDoes | apps/api/src/codes/codes.service.ts:288-307 | a credit goes through exactly for a wallet and an unused key, and adds exactly the value |
| Effects.OverridePriceDoes | apps/api/src/admin/admin.controller.ts:241-285 | an override sets the locked price of a row and nothing else, and refuses deleted tunnels and block members |
| Effects.AddPoolDoes | apps/api/src/admin/admin.controller.ts:422-475 | a pool is accepted exactly when it passes the checks and shares no address with another pool; all its addresses start available, under one plan |
| Effects.AddSalePlanDoes | apps/api/src/admin/admin.controller.ts:810-868 | a plan is accepted exactly when it passes the checks, and is appended at the end of its pool's order |
| Runs.StepConserves | apps/api/src/admin/admin.controller.ts:376-391 | every single event, adjustments included, keeps the ledger balanced |
| Runs.OwnershipKept | packages/provisioning/src/ip-block.ts:184-206 | over every timely run live blocks have exactly the addresses of their CIDR as members, with the block's owner and one tunnel, and an attached address has its tunnel's owner |
| Runs.StepPlaced | packages/provisioning/src/billing-scheduler.ts:456-600 | each event kind keeps ownership, and the pool counters too when it is careful |
| Runs.ChargeSoundIff | packages/provisioning/src/billing-scheduler.ts:290-308 | a charge that acts, timely or not, keeps ownership exactly when it is not for a block that is no longer live |
| Runs.ReleaseThenCharge | packages/provisioning/src/billing-scheduler.ts:290-308 | a block released before a charge takes its lock is charged or suspended, is live again, and ownership is broken |
| Runs.ReleaseThenChargeExample | packages/provisioning/src/billing-scheduler.ts:290-308 | a concrete customer whose released block is charged and active again |
| Reachable.ReachableInOrder | packages/provisioning/src/billing-scheduler.ts:456-600 | from the empty database on: the books balance after every run; ownership, renewal keys and grace are in order after every timely one; the pool counters after every timely and careful one |
| Placement.BlocksDisjoint | packages/provisioning/src/ip-block.ts:184-206 | live blocks share no address |
| Placement.MembersAre | packages/provisioning/src/ip-block.ts:184-206 | the member rows of a live block are exactly its CIDR's addresses |
| Placement.FirstTunnelWellDefined | packages/provisioning/src/ip-block.ts:271-283 | moveIpBlock's first tunnel is the tunnel of every member row, so the row order does not matter |
| Runs.CountersKept | packages/provisioning/src/public-ip.ts:191-194 | over every timely, careful run available plus allocated is the pool's size and allocated is the number of allocated or suspended addresses |
| Placement.ClaimIpCountedIff | packages/provisioning/src/public-ip.ts:171-194 | claiming a single keeps the counters exactly when the row was not allocated or suspended |
| Placement.CountedGive | packages/provisioning/src/public-ip.ts:355-363 | returning held addresses keeps the counters, and the clamp at zero never acts |
| Placement.FreeBlockCounted | packages/provisioning/src/billing-scheduler.ts:585-597 | releasing or cancelling a live block returns exactly its size to its pool |
| Placement.ClaimBlockCounted | packages/provisioning/src/admin-grant.ts:131-134 | granting or selling a free window moves exactly its size in the counters |
| Renewals.RunBehind | packages/provisioning/src/billing-scheduler.ts:198-224 | over every timely run with a monotone clock each recorded renewal key's day is strictly before the item's next billing day |
| Renewals.ChargeBehindIff | packages/provisioning/src/billing-scheduler.ts:169-224 | a successful charge keeps the keys behind exactly when the cycle it paid for has begun |
| Renewals.ChargeNeverSkips | packages/provisioning/src/billing-scheduler.ts:198-202 | a due item with a price and a wallet is charged or suspended by its balance and never skipped as already charged |
| Renewals.RenewalExactlyOnce | packages/billing/src/index.ts:68-89 | in every such run a due, payable item pays for exactly the cycle that starts at its billing date, under a key that was free, and no key repeats |
| Renewals.StarvedForever | packages/provisioning/src/billing-scheduler.ts:198-202 | once the key of its current cycle is taken, no further renewal of a tunnel is recorded in any run without a tier change of it, timely or not |
| Renewals.OverlapStarves | packages/provisioning/src/change-tier.ts:131-139 | two overlapping charges followed by a tier change take the key of the next cycle |
| Prices.StepKeepsPrice | packages/provisioning/src/change-tier.ts:131-139 | no event changes an item's locked price but a tier change, an override, or another sale of the single |
| Prices.SaleLocks | packages/provisioning/src/change-tier.ts:131-139 | every sale, grant and tier change locks the price it was made for |
| Prices.SoldPriceBilled | packages/provisioning/src/billing-scheduler.ts:175-224 | so after any run without a re-pricing, timely or not, every charge bills what the item was sold for, whatever the catalog has become |
| Prices.TimelyRenewalPosts | packages/provisioning/src/billing-scheduler.ts:175-224 | and over a timely run a due item with an affordable locked price posts exactly that price and moves by one cycle |
| CatchUp.CatchesUp | packages/provisioning/src/billing-scheduler.ts:55-103 | over n consecutive ticks at one instant, with a balance that covers what all the owner's due items owe, each item advances by min(n, its overdue cycles) cycles, the balance minus what is still owed never changes, and once n reaches the largest count nothing of the owner is due and the balance has fallen by exactly what was owed |
| CatchUp.TickPays | packages/provisioning/src/billing-scheduler.ts:175-224 | one such tick: every billed item of the owner is renewed once, its overdue count drops by one, and the balance falls by exactly the sum of their prices, the price column of every row that has one, whatever other owners' items and cancellations the tick handles |
| CatchUp.BilledBefore | packages/provisioning/src/billing-scheduler.ts:44-147 | a tick makes no item due that was not due before |
| Grace.GraceKept | packages/provisioning/src/billing-scheduler.ts:351-390 | for every tunnel and block, over every timely run, suspended_at and delete_after are both null or exactly three days apart and agree with the status |
| Grace.IpGraceKept | packages/provisioning/src/billing-scheduler.ts:392-454 | the same for a single address that is not bought while it carries a suspension date |
| Grace.FailingTickKeepsDeadline | packages/provisioning/src/billing-scheduler.ts:351-390 | a failing tick on a suspended item moves neither date |
| Grace.CancelledAfterGrace | packages/provisioning/src/billing-scheduler.ts:107-147 | for every tunnel and block, over every timely run: a cancellation at time t implies an earlier unpaid tick at or before t minus three days, with the balance below the price and nothing paid for the item since |
| Grace.IpCancelledAfterGrace | packages/provisioning/src/billing-scheduler.ts:121-134 | the same for a single address that is not bought while suspended |
| Grace.SettledNotExpired | packages/provisioning/src/billing-scheduler.ts:55-116 | an item charged or suspended now is not expired now |
| Grace.BoughtSuspendedIsCancelled | packages/provisioning/src/public-ip.ts:171-190 | buying a suspended address keeps the old deadline, so the paid address is cancelled when it passes |
| Grace.BuyIpGraceIff | packages/provisioning/src/public-ip.ts:171-190 | a purchase leaves the grace columns in order exactly when the row, whatever its status, carries no suspension date |
| Scheduler.TickIsTimelyRun | packages/provisioning/src/billing-scheduler.ts:44-147 | a tick that runs alone is a timely run: every selection still holds when its transaction starts |
| Scheduler.TickKeeps | packages/provisioning/src/billing-scheduler.ts:44-147 | a tick keeps conservation, ownership and the pool counters |
| Scheduler.TickNeverBoth | packages/provisioning/src/billing-scheduler.ts:55-147 | no tick both charges or suspends and cancels an item |
| Scheduler.ExpiredTunnelGone | packages/provisioning/src/billing-scheduler.ts:107-119 | a tunnel whose grace was over is deleted when the tick ends |
| Scheduler.ChargesStable | packages/provisioning/src/billing-scheduler.ts:55-103 | charging distinct due items changes neither the due status of any other item nor which items are expired |
| Ticks.TickBills | packages/provisioning/src/billing-scheduler.ts:55-103 | in a lone tick a billed row ends paid for one cycle or suspended, by the money that is there when its turn comes; suspension dates that it has are not moved |
| Ticks.TickCancels | packages/provisioning/src/billing-scheduler.ts:105-147 | a row whose grace is over ends closed without grace dates, and an address loses its owner |
| Ticks.TickLeaves | packages/provisioning/src/billing-scheduler.ts:44-147 | every other row is as before |
| Ticks.ReportCounts | packages/provisioning/src/billing-scheduler.ts:44-147 | the report counts as many charges as renewal rows were added, as many cancellations as items whose grace was over, and, when every due item has a price and a wallet, charges and suspensions are together the due items |
| Service.ControlPlane.RunBillingTick | packages/provisioning/src/billing-scheduler.ts:44-147 | the six loops charge exactly the items due at the start and cancel exactly those expired at the start, once each, and the report counts the outcomes per kind |
| Service.ControlPlane.ChargePhase | packages/provisioning/src/billing-scheduler.ts:55-103 | one selection and its loop, with the counters as tallies of the outcomes |
| Service.ControlPlane.CancelPhase | packages/provisioning/src/billing-scheduler.ts:105-145 | one cancellation loop over exactly the expired items of a kind |
| Service.ControlPlane.ChargeOne | packages/provisioning/src/billing-scheduler.ts:156-349 | the charge transaction on the fields is the charge function, whose price, debit and suspension are those of Effects.ChargeTakes and Effects.ChargeSkips |
| Service.ControlPlane.ForceCancelTunnel | packages/provisioning/src/billing-scheduler.ts:456-503 | cancelling a tunnel on the fields is the cancel function |
| Service.ControlPlane.ForceCancelPublicIp | packages/provisioning/src/billing-scheduler.ts:505-530 | cancelling a single on the fields is the cancel function |
| Service.ControlPlane.ForceCancelIpBlock | packages/provisioning/src/billing-scheduler.ts:570-600 | cancelling a block on the fields is the cancel function |
| Service.ControlPlane.BuyIpBlock | packages/provisioning/src/ip-block.ts:125-240 | sells the first free window, in plan order, of some pool, and reports that none is available only when every window on sale in that size in every pool holds a taken address; every refusal changes nothing and has its reason |
| Service.ControlPlane.ChooseWindow | packages/provisioning/src/ip-block.ts:146-181 | the loop over pools finds the first free window in plan order of a pool that has one, and none only when every pool is sold out |
| Service.ControlPlane.ClaimMembers | packages/provisioning/src/ip-block.ts:192-206 | the upsert loop leaves every address of the window as a member row and all other rows alone |
| Service.ControlPlane.AdminGrantBlock | packages/provisioning/src/admin-grant.ts:80-135 | grants exactly aligned, contained, wholly free blocks |
| Service.ControlPlane.BuyPublicIp | packages/provisioning/src/public-ip.ts:132-219 | the purchase of a single on the fields is the purchase function |
| Service.ControlPlane.BuyFirstSingle | packages/provisioning/src/public-ip.ts:221-252 | the search finds the first free address in plan order of a pool; it passes every check of buyPublicIp but the wallet's, so it is sold or refused for money, and no address is reported only when every address on sale as a single is taken |
| Service.ControlPlane.ReleasePublicIp | packages/provisioning/src/public-ip.ts:328-370 | the release of a single on the fields is the release function |
| Service.ControlPlane.MovePublicIp | packages/provisioning/src/public-ip.ts:254-301 | the move of a single on the fields is the move function |
| Service.ControlPlane.MoveIpBlock | packages/provisioning/src/ip-block.ts:243-290 | in a sound state the loop's first tunnel is the block's tunnel, and the move is the move function |
| Service.ControlPlane.CreateTunnel | packages/provisioning/src/provision.ts:38-152 | row, price, cycle and debit of a new tunnel together or not at all |
| Service.ControlPlane.ChangeTunnelTier | packages/provisioning/src/change-tier.ts:44-150 | the tier-change transaction with its refusals, its idempotent replay and the restarted cycle; its columns are those of Effects.ChangeTierDoes |
| SalePlans.Ip4ToIntIs | packages/provisioning/src/sale-plans.ts:12-13 | the shifting fold overflows into the sign bit and the unsigned shift repairs it: the result is the address |
| SalePlans.Ip4RoundTrip | packages/provisioning/src/sale-plans.ts:12-15 | printing and parsing an address are inverse below 2^32 |
| SalePlans.CidrSizeIff | packages/provisioning/src/sale-plans.ts:17-27 | the shifted size is right exactly for prefixes of two and more |
| SalePlans.BlockMask | packages/provisioning/src/sale-plans.ts:35-39 | the bit mask tests exactly divisibility by the block size |
| SalePlans.MaskAligns | packages/provisioning/src/sale-plans.ts:35-39 | the mask test on the shifted size implies that a positive size is a power of two dividing the network address, for every prefix length |
| SalePlans.OverlapSound | packages/provisioning/src/sale-plans.ts:41-45 | ranges reported as not overlapping share no address |
| SalePlans.AddPoolKeeps | apps/api/src/admin/admin.controller.ts:434-475 | a block that passes the mask test and the prefix, mode and size checks is a proper aligned pool whose initial plan satisfies the plan invariant |
| SalePlans.AddSalePlanKeeps | apps/api/src/admin/admin.controller.ts:834-868 | a plan that passes the mask, containment, size and overlap checks, for any prefix length, keeps plans aligned, contained and pairwise disjoint |
| SalePlans.PoolAcceptedIff | apps/api/src/admin/admin.controller.ts:422-475 | a block passes addPool's checks exactly when its network is aligned, its length is in range and it may be sold as asked |
| SalePlans.PlanAcceptedIff | apps/api/src/admin/admin.controller.ts:810-868 | a plan passes addSalePlan's checks exactly when it is aligned, inside the pool, sold in a size that fits, and shares no address with another plan |
| SalePlans.SelectOrder | packages/provisioning/src/sale-plans.ts:72-88 | the ranges searched are those of exactly the plans of the mode, each once and in plan order |
| SalePlans.SellableIff | packages/provisioning/src/sale-plans.ts:105-129 | an address is sold as a single exactly when there are no plans or the first plan that covers it is a single plan |
| SalePlans.FindFreeBlock | packages/provisioning/src/sale-plans.ts:72-103 | with plans, the window comes from the first plan sold in blocks of the size that has a free window, and is the first free one there, and null means that every window of every such plan holds a taken address; without plans the same over the pool |
| SalePlans.WindowIsBlock | packages/provisioning/src/sale-plans.ts:72-103 | under the plan invariant a window of a range on sale in that size is aligned, inside the pool, and its printed CIDR denotes exactly it |
| SalePlans.FindFreeSingleIp | packages/provisioning/src/sale-plans.ts:49-69 | with plans, the address comes from the first single plan that has a free address, and is the lowest free one there, and null means that every address of every single plan is taken; without plans the same over the pool |
| SalePlans.FoundIsSellable | packages/provisioning/src/sale-plans.ts:106-128 | under the plan invariant whatever the search returns is accepted by the check for explicit purchases |
| Grouping.GroupingMeans | packages/provisioning/src/public-ip.ts:65-73 | the CIDR list of a tunnel denotes exactly the allocated addresses attached to it |
| Grouping.ListsDisjoint | packages/provisioning/src/ip-block.ts:58-66 | lists of different tunnels denote disjoint sets |
| Grouping.QueryIsDesired | packages/provisioning/src/drift.ts:61-81 | in a sound database the desired-state rows have distinct keys, readable addresses and disjoint prefixes |
| Grouping.PassPeers | packages/provisioning/src/drift.ts:55-160 | from any agent state on which the calls can succeed, suspended or incoherent peers included, after one pass a tunnel has a peer exactly when it is active |
| Grouping.PassServes | packages/provisioning/src/drift.ts:86-160 | and its AllowedIPs denote exactly its private address and its attached addresses |
| Grouping.TickThenPass | packages/provisioning/src/billing-scheduler.ts:44-147 | from any such agent state, after a tick and one pass no peer remains for an expired or suspended tunnel, and every active one has its peer |
| Grouping.MoveIpLists | packages/provisioning/src/public-ip.ts:254-301 | a move takes the /32 off every other list and puts it on the target's |
| Grouping.MoveBlockLists | packages/provisioning/src/ip-block.ts:243-290 | a block move does the same with the block's CIDR |
| Moves.MoveIpKeepsAgent | packages/provisioning/src/public-ip.ts:297-321 | attaching, detaching or moving a single, between any gateways: whichever pushes fail, an agent in sync with the database stays coherent, and when all arrive it is in sync with the database after the move |
| Moves.MoveBlockKeepsAgent | packages/provisioning/src/ip-block.ts:280-308 | the same for a block and its CIDR |
| Moves.MovedKeepsAgent | packages/provisioning/src/public-ip.ts:309-321 | the common core: any transaction that takes one prefix off one list and puts it on another, with the losing tunnel pushed first |
| Moves.MoveIpRevivesIff | packages/provisioning/src/public-ip.ts:43-58 | moving a single off a tunnel that has no peer on the agent, with all pushes delivered, leaves it with a peer exactly when the tunnel is not deleted, suspended or not |
| Moves.MoveBlockRevivesIff | packages/provisioning/src/ip-block.ts:280-308 | the same for a block |
| Moves.RevivedExample | packages/provisioning/src/public-ip.ts:297-321 | a sound database with a suspended tunnel and an agent without its peer: detaching its address brings the peer back |
| Follow.PassCoherentIff | packages/provisioning/src/drift.ts:83-160 | a pass takes a coherent agent without suspended peers to such an agent exactly when no prefix is handed over late |
| Follow.PassInSyncIff | packages/provisioning/src/drift.ts:83-160 | after a pass over the rows of a sound database the agent's metadata, AllowedIPs and routes are those of the database exactly under that condition |
| Follow.RunFollows | packages/provisioning/src/public-ip.ts:309-321 | over every run of moves with any failing pushes, and of arbitrary timely transactions followed by passes whose calls arrive and that hand no prefix over late, where a failed push is followed by a pass before the next move, the agent stays coherent, and it is in sync with the database after every turn whose calls all arrived |
| Follow.StartFollows | packages/provisioning/src/drift.ts:83-160 | such runs can start with an empty database and a fresh agent |
| Agent.KernelManager.CreatePeer | gateway-agent/internal/wg/kernel.go:144-189 | metadata, AllowedIPs and routes after a create, with its conflict and failure replies, are those of the specification function, which does what Lifecycle.CreateDoes says |
| Agent.KernelManager.UpdatePeer | gateway-agent/internal/wg/kernel.go:191-235 | the same for an update: reconfigure, withdraw dropped routes, add the new ones, stopping where the code stops; see Lifecycle.UpdateDoes |
| Agent.KernelManager.DeletePeer | gateway-agent/internal/wg/kernel.go:237-253 | the same for a delete; see Lifecycle.DeleteDoes |
| Agent.KernelManager.SuspendPeer | gateway-agent/internal/wg/kernel.go:282-302 | the same for a suspend; see Lifecycle.SuspendDoes |
| Agent.KernelManager.ResumePeer | gateway-agent/internal/wg/kernel.go:304-329 | the same for a resume; see Lifecycle.ResumeDoes |
| Agent.KernelManager.ListPeers | gateway-agent/internal/wg/kernel.go:337-387 | the report has one entry per device peer, empty where metadata is gone |
| Agent.KernelManager.Route | gateway-agent/internal/wg/kernel.go:112-134 | adds or removes exactly the prefixes up to the first unreadable text |
| Lifecycle.ParseMeans | gateway-agent/internal/wg/kernel.go:71-90 | what an address text stands for: a bare address itself, a slash text the aligned prefix around it, other texts nothing |
| Lifecycle.CreateDoes | gateway-agent/internal/wg/kernel.go:144-189 | when a create is refused, and that otherwise the peer is recorded as asked, holds exactly the named prefixes, takes them from everybody else, and its public ones are routed |
| Lifecycle.UpdateDoes | gateway-agent/internal/wg/kernel.go:191-235 | the same for an update, with the old id and status, and routes withdrawn for texts no longer listed |
| Lifecycle.DeleteDoes | gateway-agent/internal/wg/kernel.go:237-253 | a delete forgets the peer and its public routes and nothing else |
| Lifecycle.SuspendDoes | gateway-agent/internal/wg/kernel.go:282-302 | a suspend succeeds exactly for a known key, empties its AllowedIPs, withdraws its routes, sets its status, and leaves the other peers alone |
| Lifecycle.ResumeDoes | gateway-agent/internal/wg/kernel.go:304-329 | a resume of a known peer makes it active with exactly its recorded prefixes, and routes the public ones |
| Lifecycle.SuspendCutsOff | gateway-agent/internal/wg/kernel.go:282-302 | from a coherent agent a suspended peer holds nothing and none of its public prefixes is routed, while the routes of all others stay |
| Lifecycle.ResumeServes | gateway-agent/internal/wg/kernel.go:304-329 | from a coherent agent a resumed peer holds its private address and its prefixes, these are routed, and nobody else's AllowedIPs change |
| Lifecycle.SuspendResume | gateway-agent/internal/wg/kernel.go:282-329 | suspending an active peer of a coherent agent and resuming it restores the agent exactly |
| Coherence.RunKeepsCoherent | gateway-agent/internal/wg/kernel.go:144-329 | over every orderly run the routes are the union of the active peers' prefixes, AllowedIPs follow the metadata and suspended peers have none |
| Coherence.RunKeepsReadable | gateway-agent/internal/wg/kernel.go:144-329 | over every run, orderly or not, stored lists parse and device keys are real keys |
| Coherence.PushKeeps | gateway-agent/internal/wg/kernel.go:191-235 | an update of an active or unknown peer with addresses nobody else records keeps the agent coherent and records exactly the new list |
| Coherence.UpdateCoherentIff | gateway-agent/internal/wg/kernel.go:191-235 | an update keeps this exactly when the peer is active and nobody else records one of its addresses |
| Coherence.MoveKeepsCoherent | packages/provisioning/src/ip-block.ts:291-308 | pushing the loser first keeps the agent coherent whichever calls fail, and both arriving moves the prefix |
| Coherence.GainerFirstLosesRoute | gateway-agent/internal/wg/kernel.go:217-218 | the other order deletes the route the gainer just received |
| Coherence.WrongOrderExample | packages/provisioning/src/ip-block.ts:291-308 | a concrete two-peer agent on which that happens |
| Coherence.PushSyncsLoop | packages/provisioning/src/public-ip.ts:86-123 | the WireGuard pushes go out in order and stop at the first call that fails or that the agent refuses; success means that all arrived and were accepted |
| Drift.ReconcileGateway | packages/provisioning/src/drift.ts:83-160 | the two loops are the pass function, and the report lists the pushed, failed and deleted peers |
| Drift.PassSucceedsIff | packages/provisioning/src/drift.ts:86-135 | every call of the first loop succeeds exactly when no wanted key has metadata without a device peer and with another address |
| Drift.UpdateLeavesGhost | gateway-agent/internal/wg/kernel.go:196-209 | an update of an unknown key with an unreadable address fails and leaves exactly such metadata |
| Drift.GhostStays | packages/provisioning/src/drift.ts:86-135 | a pass leaves that metadata in place, so the next one fails on it again |
| Drift.PassConverges | packages/provisioning/src/drift.ts:55-160 | from any agent state, in any order, the reported peers afterwards are exactly the wanted ones with their lists |
| Drift.SecondPassIdle | packages/provisioning/src/drift.ts:86-160 | an immediate second pass in any order pushes and deletes nothing |
| Drift.DataPlaneExact | gateway-agent/internal/wg/kernel.go:92-107 | exactly what AllowedIPs each tunnel has after a pass, for every start and order, with the kernel giving a prefix to its last writer |
| Drift.DataPlaneConverges | packages/provisioning/src/drift.ts:86-160 | when skipped peers are configured as recorded, every tunnel ends with exactly its private address and its CIDRs |
| Drift.GoodStarts | gateway-agent/internal/wg/kernel.go:45-65 | a coherent agent without suspended peers, or a restarted one, meets the conditions of the two theorems above |
| Drift.DataPlaneIff | packages/provisioning/src/drift.ts:86-110 | from a coherent agent a tunnel ends with exactly its wanted AllowedIPs if and only if the pass pushes it or its peer is not suspended |
| Drift.SuspendedStaysBlocked | packages/provisioning/src/drift.ts:86-110 | a suspended peer with matching metadata keeps empty AllowedIPs |
| Drift.RoutesExact | gateway-agent/internal/wg/kernel.go:207-235 | exactly which routes a pass leaves, for every start and order |
| Drift.RoutesRightIff | gateway-agent/internal/wg/kernel.go:217-218 | from a coherent agent without suspended peers the routes are the wanted ones exactly when no prefix is handed over late |
| Drift.LateHandoverExample | packages/provisioning/src/drift.ts:86-135 | a concrete pass that leaves a wanted prefix without its route |
| Drift.LostRouteStaysLost | packages/provisioning/src/drift.ts:86-110 | a route lost that way is not restored by a later pass |
| GreAlloc.SignedIntIs | packages/provisioning/src/gre.ts:119-123 | the or of the shifted octets is the address up to its sign |
| GreAlloc.AllocateNextP2p | packages/provisioning/src/gre.ts:110-136 | the first slot of the subnet whose gateway end is not used, as the addresses 4k, 4k+1 and 4k+2 over the network; an error for subnets longer than /30, and exhaustion exactly when every slot's gateway end is used |
| GreAlloc.NthIs | packages/provisioning/src/gre.ts:126-135 | the k-th /30 has the addresses 4k, 4k+1 and 4k+2 over the network as network, gateway end and customer end |
| GreAlloc.RederivedIsAllocated | packages/provisioning/src/gre-monitor.ts:62-64 | the pair derived again from the stored gateway end is the allocated pair |
| GreAlloc.RunLaid | packages/provisioning/src/gre.ts:206-217 | over every run of provisions and soft deletes each row holds a slot of its own and the i-th key is 1000 + i |
| GreAlloc.SlotInside | packages/provisioning/src/gre.ts:206-217 | every row's /30 is aligned and inside the subnet, under key 1000 plus its number |
| GreAlloc.DeletedIff | packages/provisioning/src/gre.ts:372-404 | over every run a row is marked deleted exactly when a delete of it occurred after it was made |
| GreAlloc.SlotsApart | packages/provisioning/src/gre.ts:206-217 | the /30s of any two rows, deleted ones included, are disjoint |
| GreAlloc.SlotRederived | packages/provisioning/src/gre.ts:316-321 | activation derives every row's allocated pair from its stored end |
| GreAlloc.ExhaustedIff | packages/provisioning/src/gre.ts:126-135 | provisioning is refused exactly when as many rows exist as the subnet has slots |
| GreAlloc.SecondHostIgnored | packages/provisioning/src/gre.ts:206-212 | an address in use at a /30's second host does not stop the /30 from being allocated |
| GreAlloc.FoundFreeIff | packages/provisioning/src/gre.ts:126-135 | the /30 that the search finds holds no address in use exactly when its other three addresses are not in use |
| GreAlloc.FreshWhenGreOnly | packages/provisioning/src/gre.ts:206-212 | on a gateway with GRE rows only the new /30 holds no address in use |
| GreDrift.PassServes | packages/provisioning/src/gre-drift.ts:78-125 | after a pass without failing calls exactly the active tunnels have links, each with the remote stored in the database, and their routes denote exactly their addresses |
| GreDrift.SecondPassSettles | packages/provisioning/src/gre.ts:323-338 | a second pass cannot fail and removes the extra /32s that activation adds for block members |
| GreDrift.SettledStays | packages/provisioning/src/gre-drift.ts:94-106 | from then on a pass changes nothing |
| GreDrift.SucceedsInEveryOrderIff | gateway-agent/internal/server/handlers_gre.go:238-272 | a pass succeeds in every order exactly when no route to be added is on another link |
| GreDrift.SwapStuck | gateway-agent/internal/server/handlers_gre.go:255-271 | a pass, in any order and with any other tunnels, leaves two tunnels that swapped addresses as they are |
| GreDrift.SwapStuckForever | packages/provisioning/src/gre-drift.ts:78-125 | so does every sequence of passes |
| GreDrift.SwapExample | gateway-agent/internal/server/handlers_gre.go:255-271 | a concrete pair of tunnels in that state |
| GreDrift.PassedEach | packages/provisioning/src/gre-drift.ts:78-125 | after a pass with any failing calls orphans are gone, no link is lost, and every link is at its target or has the stored endpoint and its old routes plus possibly some wanted ones |
| GreDrift.GreAgent.CreateGrePeer | gateway-agent/internal/server/handlers_gre.go:68-165 | creation is all or nothing: the link with all routes, or nothing after the rollback |
| GreDrift.GreAgent.PatchGrePeer | gateway-agent/internal/server/handlers_gre.go:193-276 | a successful patch replaces the remote and the routes it names; a failed one has set the remote, removed nothing, and added only wanted routes that no link had |
| GreDrift.GreAgent.Reconcile | packages/provisioning/src/gre-drift.ts:25-125 | the loops perform a pass in the sense above whatever fails, report no error exactly when the pass function succeeds, and then leave its result |
| GreGrouping.GrePassServes | packages/provisioning/src/gre-drift.ts:53-76 | from a sound database: after a pass without failing calls exactly the active GRE tunnels have a link, with the stored remote and routes denoting exactly their attached addresses |
| GreGrouping.RowsAreApart | packages/provisioning/src/gre-drift.ts:53-76 | rows of different tunnels of a sound database have no route in common |
| GreGrouping.GreSucceedsIff | packages/provisioning/src/gre-drift.ts:78-125 | so over such rows a pass succeeds in every order exactly when no route to be added is on another link |
| Codes.AccountingKept | apps/api/src/codes/codes.service.ts:245-330 | over every run of redemptions, edits and batches a code's uses are its redemption rows, within the cap, no user exceeds the limit, and batch totals are the sums over their codes |
| Codes.RedeemIff | apps/api/src/codes/codes.service.ts:234-307 | a redemption succeeds exactly for a code that is active, not expired at this instant and below its cap, with a positive per-user limit, that the user, who has a wallet, has never redeemed |
| CodeRows.RefusedBecause | apps/api/src/codes/codes.service.ts:245-307 | each refusal has its own cause on the columns: an unusable code, the per-user limit, no wallet, or a second use under a higher limit |
| CodeRows.RedeemDoes | apps/api/src/codes/codes.service.ts:288-330 | a redemption credits the code's value once under its own key, counts one use on code and batch, and adds one redemption row |
| CodeRows.EditedUsable | apps/api/src/codes/codes.service.ts:181-233 | what a code's or its batch's edit of status or expiry makes of it: usable exactly when active, below its cap and not expired |
| CodeRows.CreateBatchDoes | apps/api/src/codes/codes.service.ts:38-84 | when a batch is refused, and that otherwise the i-th text names a new unused code with the batch's terms and stored codes stay |
| Codes.SecondUseRefused | apps/api/src/codes/codes.service.ts:300-307 | whatever the per-user limit, the second use fails on the duplicate key |
| Codes.SecondUseExample | apps/api/src/codes/codes.service.ts:300-307 | a concrete code that promises two uses refuses the second |
| Codes.ExhaustedIff | apps/api/src/codes/codes.service.ts:324-330 | a redemption marks the code exhausted exactly when its cap is one |
| Codes.CapIsFinal | apps/api/src/codes/codes.service.ts:181-220 | a code at its cap is never redeemed again, whatever the admin sets |
| Codes.CodesConserve | apps/api/src/codes/codes.service.ts:288-307 | every such run keeps the ledger balanced |
| Codes.RedeemIsCredit | apps/api/src/codes/codes.service.ts:288-307 | the wallet half of a redemption is the control plane's credit step |
| Codes.CodesService.RedeemCode | apps/api/src/codes/codes.service.ts:234-345 | counter first, then the checks: a refusal leaves every table as it was and says why, a success is the redemption function |
| Codes.DrawCodes | apps/api/src/codes/codes.service.ts:58-67 | the generated codes are distinct after normalization and only repeats are discarded |
| Codes.InsertIff | apps/api/src/codes/codes.service.ts:69-79 | the bulk insert fails exactly on a repeated or stored code or a taken id |
| Codes.GroupedRoundTrip | apps/api/src/codes/codes.service.ts:14-25 | normalizing the printed code gives back the characters drawn |
| Codes.NormalizeTwice | apps/api/src/codes/codes.service.ts:23-25 | normalization is idempotent |
| Traffic.BucketOf | packages/provisioning/src/traffic-sampler.ts:28-30 | the bucket start is a multiple of five minutes and the time lies in the bucket |
| Traffic.BucketHolds | packages/provisioning/src/traffic-sampler.ts:99-134 | each bucket of each tunnel and direction holds exactly the increments of the readings taken inside its five minutes |
| Traffic.RecordIsLastMinusFirst | packages/provisioning/src/traffic-sampler.ts:99-134 | the sum over all buckets is last minus first plus the value before each observed drop |
| Traffic.BucketsDoNotMatter | packages/provisioning/src/traffic-sampler.ts:99-134 | histories with the same readings leave the same sum however ticks fall into buckets |
| Traffic.NeverOverCounts | packages/provisioning/src/traffic-sampler.ts:99-134 | with arbitrary counter resets the sum falls short of the bytes moved by exactly what the resets hid, and by nothing without resets |
| Traffic.Sampler.Absorb | packages/provisioning/src/traffic-sampler.ts:99-134 | the sampling loop is the fold the theorems speak of |
| HostLists.ExpandToHost32 | gateway-agent/internal/wg/openvpn.go:139-170 | the loop is the expansion function |
| HostLists.ExpandMeans | gateway-agent/internal/wg/openvpn.go:139-170 | for IPv4 entries of at most 256 addresses expansion leaves only hosts and preserves the set of addresses |
| HostLists.ExpandAgain | gateway-agent/internal/wg/openvpn.go:139-146 | writing any list as /32 entries and expanding it gives the list back |
| HostLists.DottedRoundTrip | gateway-agent/internal/wg/openvpn.go:163-167 | a printed address reads back as itself |
| Sstp.SanitizeSafe | gateway-agent/internal/wg/openvpn.go:86-94 | a sanitized name has only safe characters, and exactly the safe names are left alone |
| Sstp.RestartRebuilds | gateway-agent/internal/wg/sstp.go:229-265 | loading the files rebuilds exactly the active peers with user, password, address, raw key, rate and expanded host list |
| Sstp.RestartWritten | gateway-agent/internal/wg/sstp.go:53-66 | after a restart the files still say what memory says |
| Sstp.RunRebuilds | gateway-agent/internal/wg/sstp.go:280-392 | over every sequence of lifecycle calls and restarts this holds |
| Sstp.LineReadsIff | gateway-agent/internal/wg/sstp.go:212-247 | a credential line of words reads back, as those words, exactly when the address is not empty |
| Sstp.UpdateSurvivesIff | gateway-agent/internal/wg/sstp.go:313-341 | after an update and a restart an active peer is there exactly when the update's address is not empty |
| Sstp.ClashLosesKey | gateway-agent/internal/wg/sstp.go:82-96 | a user named like another's key file overwrites that key |
| Sstp.SstpManager.RewriteChapSecrets | gateway-agent/internal/wg/sstp.go:212-226 | the file has one line for each active peer and none for a suspended one |
| Sstp.SstpManager.LoadChapSecrets | gateway-agent/internal/wg/sstp.go:229-265 | the parsing loop is the load function |
| Sstp.SstpManager.WriteRoutesFile | gateway-agent/internal/wg/sstp.go:179-191 | the routes file holds the expanded hosts, or nothing for a suspended peer, and the temporary file is gone |
| Sstp.SstpManager.CreatePeer | gateway-agent/internal/wg/sstp.go:280-311 | a create is the create step, refused exactly for an empty key or address or another stored address, and otherwise records the request as SstpRequests.CreateDoes says |
| Sstp.SstpManager.UpdatePeer | gateway-agent/internal/wg/sstp.go:313-341 | an update is the update step: missing peers appear, a zero rate keeps the old cap; see SstpRequests.UpdateDoes |
| Sstp.SstpManager.DeletePeer | gateway-agent/internal/wg/sstp.go:343-359 | a delete removes the peer, its three files and its credential line |
| Sstp.SstpManager.SuspendPeer | gateway-agent/internal/wg/sstp.go:361-377 | a suspend empties the routes file and drops the credential line |
| Sstp.SstpManager.ResumePeer | gateway-agent/internal/wg/sstp.go:379-392 | a resume restores both |
| SstpRequests.CreateDoes | gateway-agent/internal/wg/sstp.go:280-311 | an accepted create records id, key, address, list and rate of the request, active, with the password kept for a known user; the files say so and other users keep theirs |
| SstpRequests.UpdateDoes | gateway-agent/internal/wg/sstp.go:313-341 | an update records key, address and list, keeps id, password and status, and keeps the old cap for a zero rate |
| SstpRequests.DeleteDoes | gateway-agent/internal/wg/sstp.go:343-359 | a delete forgets exactly the user and its three files |
| SstpRequests.SuspendDoes | gateway-agent/internal/wg/sstp.go:361-377 | a suspend sets the status and empties the routes file |
| SstpRequests.ResumeDoes | gateway-agent/internal/wg/sstp.go:379-392 | a resume sets the status and writes the host list again |
| SstpRequests.LastRequestSurvives | gateway-agent/internal/wg/sstp.go:229-392 | after any further calls and restarts a reload gives the user back as its last accepted request asked, and does give it back unless it was suspended or deleted since |

## Left out

- Postgres isolation: transactions are atomic; reads that are not row-locked are part of their transaction.
- Columns without effect on the properties: audit logs, notifications, gateway tunnel counts, speed limits and shaping, timestamps of allocation and release.
- Activation is modelled from the provisioning status only, as the two activation flows use it; a failed activation is simply not a step.
- setSaleMode, deletePool, removeTunnel and the scripts: they rewrite or purge rows outside the normal life of an item.
- Drift's comparison sorts both lists and compares them; it is modelled as equality of multisets.
- WireGuard and SSTP address texts are IPv4; IPv6 texts take the same path as texts that do not parse.
- The in-memory WireGuard manager: its update ignores the private address; the kernel manager is the one modelled.
- GRE peer ids are the first eight hex digits of a tunnel id; they are taken to be distinct on a gateway, and the check that a customer address is not text inside the tunnel's own /30 is not modelled, because pool addresses are never in that subnet.
- Sstp: file-system errors, live routes on the ppp interface, shaping and session killing; white space is the ASCII kind.
- Codes.Normalize: white space and case folding are ASCII only.
- SalePlans.PlanAcceptedIff: speaks of lengths whose shifted size is positive; for the others `SalePlans.CidrSizeIff` says what the shift gives.
- Service.ControlPlane.BuyIpBlock: the order in which the database returns pools is arbitrary, so only the window within a pool is the first one.
- Coherence.PushSyncsLoop: the GRE branch of pushSyncs, which is a `GreDrift.Patched` call on the other agent.
- Drift.ReconcileGateway: failing orphan deletions and the blackhole routes set after the loops.
- GreDrift.GreAgent.PatchGrePeer: which of the wanted routes a failed patch has already added is left open, because the order of a Go map is arbitrary.
- Traffic: pruning of samples older than ninety days.
- Portal, controllers beyond the named methods, authentication, e-mail, DNS, PKI, BGP: user interface, network clients or foreign libraries.
