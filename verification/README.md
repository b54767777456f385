# Verified models of the operating-systems programs

The repository holds small concurrent programs. Each module here models one of them as a
shared state with atomic steps (one step is a semaphore operation, a message, a critical
section or one access to a shared cell), proves what every step keeps, and derives what
holds of whole runs. Where the source works in place, a class holds the source's arrays,
counters and flags, and each of its methods is proved equal to the step of the state
machine or to the function it computes.

| file | program |
|---|---|
| `Mmu.dfy`, `Master.dfy` | memory management unit and set-up of the demand-paging system (Assignment8) |
| `Paging.dfy`, `PagingProgress.dfy`, `PagingHandshake.dfy`, `PagingAccounts.dfy`, `PagingSystem.dfy` | processes, scheduler and unit together: safety, termination, messages, the books, the running system |
| `EventQueue.dfy` | the event heap (Assignment6) |
| `Session.dfy`, `SessionSchedule.dfy`, `SessionOrder.dfy`, `SessionProgress.dfy`, `Clinic.dfy` | the doctor's session: protocol, timing, who is admitted, completion, the running office |
| `Graphs.dfy`, `TopoSort.dfy`, `TopoSystem.dfy`, `Shuffle.dfy`, `GraphGen.dfy` | semaphore topological sort and its graph generator (Assignment5) |
| `Barrier.dfy`, `BarrierRuns.dfy`, `TreeSum.dfy`, `TreeSumProofs.dfy`, `TreeGen.dfy`, `TreeProgram.dfy` | the barrier library, the tree sum and its tree generator (Assignment7) |
| `DirSync.dfy`, `DirMeaning.dfy`, `DirProgram.dfy` | directory synchronisation (Assignment9) |
| `ProdCons.dfy`, `ProdConsProgress.dfy`, `ProdConsSystem.dfy` | producer and consumers, second version (Assignment4) |
| `Counting.dfy` | finite sums and sets used by the counting invariants |

`dafny verify dfyconfig.toml` checks everything.

## How to read the theorems

Paging. LRU is stated against a reference definition: `MostRecent(hist, c)` is the set of
the c distinct pages referenced last, and `ResidentPages` is what the page table holds. The
per-page counters realise it only because a process retries the page it faulted on: a
fault does not age the other pages, and the loaded page counts as referenced when the
retry hits. `Recency` is the invariant in between. Termination is a statement about
infinite runs: `FairRun` is any sequence of steps in which no process stays forever on its
way to the ready queue, and `FairRunFinishes` gives the point at which the scheduler is
through, frameless processes included.

Session. `Visit` records what is printed for a consultation. `RunSchedule` speaks about the
whole record, `RunMoment` about the instant a visitor goes in. `CompletesIff` is exact and
speaks of the letters in the file: a run that can go no further has completed if and only if
the file has at least 25 records 'P' and 3 records 'S'; `NobodyComes` is a run on an empty file that
does not.

Topological sort. `BossWakesIffAcyclic` is exact too: runs are finite, and one that can go
no further has woken the boss if and only if the graph has no cycle.

Directory synchronisation. `Synced` is the destination afterwards, `Lines` what is printed.
The destination is a copy of the source exactly under `NoClash` (no file faces a directory)
and `NoStale` (equal size and time mean equal contents), `MirrorIff`; `MirrorFails` shows an
input for each that breaks the copy. `DirMeaning` states the outcome and every printed line
path by path, by looking the path up in the two trees. A second run never changes anything,
and prints nothing exactly under `NoClash`.

Points where the code and its surroundings differ are followed as the code has them: the
comparison of events answers -1 on equal keys in both directions; whatever is neither a
patient nor a sales representative is a reporter; the doctor woken for nobody waits for ever;
a file facing a directory leaves the directory in place but gives it the file's time and mode.

## Model

| member | source | states |
|---|---|---|
| Mmu.HandleOwned | Assignment8/mmu.c:109-325 | every request keeps frame ownership: a frame is marked 1 iff exactly one valid entry of one process holds it, an entry is valid iff its frame is not -1; after an end mark or an illegal page the requester holds nothing |
| Mmu.ReleaseOwned | Assignment8/mmu.c:114-120 | releasing a process frees exactly its frames and keeps ownership |
| Mmu.FirstUnoccupied | Assignment8/mmu.c:216-219 | the free-frame scan stops within the list, at the first entry that is not 1 |
| Mmu.Victim | Assignment8/mmu.c:259-268 | the scan finds the first resident page with the largest counter, or -1 when nothing is resident |
| Mmu.VictimIsLeastRecent | Assignment8/mmu.c:259-300 | by the recency invariant the victim is the least recently used resident page, never-referenced preloaded pages first in index order |
| Mmu.HitRecency | Assignment8/mmu.c:182-189 | ageing all resident pages and zeroing the referenced one makes every counter the distance to the page's last completed reference |
| Mmu.ReplaceRecency | Assignment8/mmu.c:299-306 | replacement keeps the recency invariant with the loaded page pending its retry |
| Mmu.HandleRecency | Assignment8/mmu.c:135-326 | one request of a process that retries after a fault: a hit completes a reference, a fault leaves the page pending or, with nothing to give up, changes nothing |
| Mmu.ResidentAreMostRecent | Assignment8/mmu.c:176-306 | between references the resident pages ever referenced are exactly the c most recent ones, c being the number of frames held |
| Mmu.ResidentCount | Assignment8/mmu.c:176-306 | there are min(c, d) of them for d distinct pages referenced |
| Mmu.HandleOutcome | Assignment8/mmu.c:176-306 | the resident set after a request: unchanged on a hit, plus the page if a frame is free, else the least recently used page exchanged for it, else unchanged |
| Mmu.HandleOthers | Assignment8/mmu.c:102-306 | a request touches no other process's table and keeps table sizes |
| Mmu.HandleAnswers | Assignment8/mmu.c:134-197 | a request is a hit exactly when the page is resident, answered with the occupied frame that holds it; illegal exactly when the page is outside the table |
| Mmu.HandleCounts | Assignment8/mmu.c:143-170 | every reference advances the time stamp by one, an absent page costs one fault, an illegal one an invalid reference, and no entry is renumbered |
| Mmu.Unit.Serve | Assignment8/mmu.c:94-329 | the request loop's body over the tables and the free list in place computes Handle; a hit is answered with the frame the page sits in, before and after |
| Mmu.Unit.ReleaseFrames | Assignment8/mmu.c:114-120 | the releasing loop in place computes Release |
| Mmu.Unit.TouchPage | Assignment8/mmu.c:182-189 | the ageing loop in place computes Touch |
| Mmu.Unit.FindFree | Assignment8/mmu.c:216-219 | the scan loop returns FirstUnoccupied |
| Mmu.Unit.FindVictim | Assignment8/mmu.c:259-268 | the scan loop returns Victim |
| Mmu.Unit.LoadPage | Assignment8/mmu.c:213-306 | counting the fault and loading or replacing in place |
| Master.ShareFits | Assignment8/master.c:264-275 | with f at most the total page count no process gets more frames than it has pages |
| Master.SharesFit | Assignment8/master.c:263-275 | the proportional shares never add up to more than f |
| Master.ShareExact | Assignment8/master.c:265 | a share is f times the pages over the total, rounded down |
| Master.ShareMonotone | Assignment8/master.c:265 | who has at least as many pages never gets fewer frames |
| Master.FewLeftOver | Assignment8/master.c:263-275 | fewer frames stay free than there are processes |
| Master.InitialResidents | Assignment8/master.c:264-275 | every process starts with its first pages resident, as many as its share, in consecutive frames after those of the processes before it |
| Master.InitialProportional | Assignment8/master.c:264-275 | the number of resident pages is the proportional part, rounded down |
| Master.InitialOwned | Assignment8/master.c:179-203 | the tables and the free list set up by the master satisfy frame ownership |
| Master.SetUp | Assignment8/master.c:179-275 | the set-up loops over fresh arrays produce the initial memory, with each process's proportional number of resident pages |
| Master.Grant | Assignment8/master.c:269-274 | the inner loop gives a process consecutive frames and marks them |
| Paging.StepInv | Assignment8/sched.c:48-85 | every message or semaphore operation of scheduler, processes and unit keeps the system invariant |
| Paging.RunInv | Assignment8/process.c:64-127 | every reachable state satisfies it |
| Paging.RunLru | Assignment8/process.c:85-113 | in every reachable state a living process not about to retry holds exactly the min(c, d) most recent of its pages; before a retry the loaded page is resident |
| Paging.RunFault | Assignment8/mmu.c:134-306 | in every reachable state the request in the queue is the next reference of the dispatched process; a hit names the occupied frame that holds the page, the resident set changes as LRU prescribes, and an illegal page ends the process without a frame |
| Paging.FramesKept | Assignment8/mmu.c:295-306 | a process never loses a frame before it ends |
| Paging.FinishedClean | Assignment8/sched.c:87-98 | when the scheduler finishes every process is gone and every frame is free |
| Paging.NotStuck | Assignment8/sched.c:48-85 | no reachable state is stuck before the scheduler has finished |
| PagingProgress.StepWork | Assignment8/process.c:85-127 | the remaining work never grows, and while it stays the same frames and progress stay the same |
| PagingProgress.ProductiveExists | Assignment8/mmu.c:270-293 | somebody can always make progress: frameless processes wait only for living holders of frames |
| PagingProgress.LineStep | Assignment8/sched.c:50-85 | a process in the FIFO queue that can make progress comes nearer to its turn with every step that does no work |
| PagingProgress.FairRunFinishes | Assignment8/sched.c:48-98 | every fair run reaches k = 0 with everybody gone and all frames free, for every f >= 1 |
| PagingHandshake.RunHistory | Assignment8/sched.c:50-85 | each dispatch is answered by exactly one notification about the dispatched process before the next dispatch, and each process causes exactly one end notification |
| PagingHandshake.RunSender | Assignment8/process.c:74-97 | between a dispatch and its notification only the dispatched process sends requests, one at a time |
| PagingHandshake.RunCount | Assignment8/sched.c:74-84 | k is always the initial count minus the end notifications consumed |
| PagingAccounts.RunAccounts | Assignment8/mmu.c:143-323 | in every reachable state the time stamp is the number of references answered, a process's page faults are its fault notifications, and it has one invalid reference iff it ended before the end of its reference string |
| PagingSystem.System.constructor | Assignment8/master.c:155-345 | setting up queues, semaphores, tables and processes gives the initial state |
| PagingSystem.System.Begin | Assignment8/master.c:318-338 | a process started in place is the Start step |
| PagingSystem.System.Join | Assignment8/process.c:69-72 | joining the ready queue in place is the Enqueue step and keeps the invariant |
| PagingSystem.System.WakeUp | Assignment8/process.c:74-79 | passing the semaphore in place is the Wake step |
| PagingSystem.System.SendRequest | Assignment8/process.c:85-125 | sending the next request or the end mark in place is the Send step |
| PagingSystem.System.React | Assignment8/process.c:102-112 | the requester leaves its loop on a fault, exits on an illegal page and goes on after a hit |
| PagingSystem.System.ServeRequest | Assignment8/mmu.c:94-329 | serving a request with the reply picked up is the Serve step |
| PagingSystem.System.DispatchNext | Assignment8/sched.c:50-64 | taking the head of the queue and signalling it is the Dispatch step |
| PagingSystem.System.ReceiveNote | Assignment8/sched.c:69-84 | consuming the notification and counting down is the Receive step |
| EventQueue.EventCmp | Assignment6/event.c:5-16 | the comparison decides the (time, R before P before S) order in one direction each way although it is negative on equal keys |
| EventQueue.HeapMin | Assignment6/event.c:98-102 | the first element of a heap is a minimum |
| EventQueue.SiftDownRestores | Assignment6/event.c:46-53 | sifting down restores heap order above a hole |
| EventQueue.SiftUpRestores | Assignment6/event.c:66-72 | sifting up restores heap order below a new leaf |
| EventQueue.HeapifyCorrect | Assignment6/event.c:44-54 | building yields a heap of exactly the input events |
| EventQueue.InsertCorrect | Assignment6/event.c:59-75 | inserting keeps the heap and adds exactly one event |
| EventQueue.DeleteMinCorrect | Assignment6/event.c:77-96 | deleting keeps the heap and removes exactly one minimum |
| EventQueue.DrainHeapify | Assignment6/event.c:44-102 | repeatedly taking and deleting the next event yields a sorted permutation of the file |
| EventQueue.EventQ.constructor | Assignment6/event.c:23-57 | reading up to the end mark and heapifying in place gives Heapify of the records |
| EventQueue.EventQ.Load | Assignment6/event.c:34-41 | the reading loop stores the records before the end mark in file order |
| EventQueue.EventQ.HeapifyInPlace | Assignment6/event.c:44-54 | the build loop in place computes Heapify |
| EventQueue.EventQ.SiftDownInPlace | Assignment6/event.c:46-53 | the inner loop in place computes SiftDown and terminates |
| EventQueue.EventQ.Add | Assignment6/event.c:59-75 | insertion in place computes Insert |
| EventQueue.EventQ.Delete | Assignment6/event.c:77-96 | deletion in place computes DeleteMin, nothing on an empty queue |
| EventQueue.EventQ.Next | Assignment6/event.c:98-102 | the head of the heap, or an end mark when it is empty |
| Session.StepInv | Assignment6/session.c:67-238 | every critical section of assistant, doctor and visitors keeps the session invariant |
| Session.RunInv | Assignment6/session.c:300-569 | every reachable state satisfies it |
| Session.CountByLetter | Assignment6/session.c:477-549 | patients are the records 'P', sales representatives the records 'S', reporters the rest |
| Session.UrgencyByLetter | Assignment6/session.c:115-127 | the doctor's priority is the heap's order at equal times: 'R' before 'P' before 'S' |
| SessionSchedule.RunSchedule | Assignment6/session.c:158-165 | consultations are pairwise disjoint and in order, none starts before nine or before its arrival, each lasts its duration, and whoever is more urgent and had come by a start had been in before |
| SessionSchedule.RunMoment | Assignment6/session.c:112-143 | when a visitor can go in it starts at once, nobody who has come is still in the heap, a patient or sales representative goes in only with all admitted reporters served, a sales representative only with all patients served |
| SessionSchedule.OpensAtNine | Assignment6/session.c:309-406 | the session opens at nine, exactly when everybody who came earlier has been taken in |
| SessionSchedule.LateCameLater | Assignment6/session.c:408-441 | whoever was turned away after the session came after the doctor left, everybody else had come by then |
| SessionOrder.RunInOrder | Assignment6/session.c:468-549 | in every reachable state the visitors of each kind were admitted in the order of arrival, those turned away were so in that order, and nobody turned away for a quota goes before somebody admitted under it |
| SessionSchedule.ClockMoves | Assignment6/session.c:551-564 | the clock moves only with a visit, by its duration, or with nobody admitted unserved and a quota still open, to the earliest arrival to come |
| SessionProgress.StepShrinks | Assignment6/session.c:300-569 | every step lowers a potential |
| SessionProgress.RunBounded | Assignment6/session.c:300-569 | no run is longer than 44 times the number of events plus 42 |
| SessionProgress.HowItEnds | Assignment6/session.c:133-136 | a reachable state is stuck exactly when the assistant has exited or the doctor waits for somebody nobody woke |
| SessionProgress.CompletesIff | Assignment6/session.c:80-98 | a run that can go no further has completed iff the file has at least 25 records 'P' and 3 records 'S'; otherwise the doctor waits for ever |
| SessionProgress.NobodyComes | Assignment6/session.c:459-466 | a run on an empty file that ends with the doctor waiting for ever |
| SessionProgress.Completion | Assignment6/session.c:80-98 | on completion exactly 25 records 'P', 3 records 'S' and every other record that was not late were in, each exactly once |
| SessionProgress.RunLetters | Assignment6/session.c:477-549 | in every reachable state the patients' threads hold only records 'P', the sales representatives' only 'S', the reporters' neither |
| SessionProgress.CompletionPlaces | Assignment6/session.c:408-441 | the file is then the admitted, those turned away for the quota and those turned away after the session, reporters never for the quota |
| SessionProgress.RunConserves | Assignment6/session.c:473-549 | throughout, the waiting counts are the admitted less those called in, totals are admitted plus turned away, arrived plus to come is the file, and quotas are kept |
| Clinic.Office.constructor | Assignment6/session.c:243-297 | the initial flags, counters and heap give the initial state |
| Clinic.Office.RunAssistant | Assignment6/session.c:301-565 | the assistant's critical section in place is the Assist step |
| Clinic.Office.BeforeSession | Assignment6/session.c:309-406 | before the session early arrivals are let in, anything else opens it |
| Clinic.Office.DuringSession | Assignment6/session.c:459-568 | during the session arrivals are let in, the doctor is woken, or the clock moves on |
| Clinic.Office.ClearFlag | Assignment6/session.c:566-568 | the sleep flag is cleared after unlocking, as a step of its own |
| Clinic.Office.TakeNext | Assignment6/session.c:473-549 | taking the next event off the heap and admitting it or turning it away; 'P' counts as a patient, 'S' as a sales representative, anything else as a reporter |
| Clinic.Line.Admit | Assignment6/session.c:484-489 | an admitted visitor's arguments are stored, its thread created, and both counters raised |
| Clinic.Office.TakePatient | Assignment6/session.c:477-504 | a patient is admitted below the quota and turned away above it |
| Clinic.Office.TakeSales | Assignment6/session.c:505-532 | a sales representative is admitted below the quota and turned away above it |
| Clinic.Office.TakeReporter | Assignment6/session.c:533-549 | a reporter is always admitted |
| Clinic.Office.Dismiss | Assignment6/session.c:408-441 | the loop after the session counts and turns away the rest in heap order |
| Clinic.Office.WakeDoctor | Assignment6/session.c:70-74 | the doctor wakes and sets the sleeping flag again |
| Clinic.Office.CheckQuotas | Assignment6/session.c:76-101 | the doctor's check in place is the Check step |
| Clinic.Office.CallVisitor | Assignment6/session.c:103-108 | the session flag is raised and a visitor announced |
| Clinic.Office.ChooseLine | Assignment6/session.c:111-130 | waking the most urgent kind in place is the Choose step |
| Clinic.Office.CloseVisit | Assignment6/session.c:132-143 | told that the visit is over the doctor wakes the assistant |
| Clinic.Office.SeeDoctor | Assignment6/session.c:158-173 | the clock moves to the end of the visit, which is recorded, and the doctor is told |
| Clinic.Office.PatientEnters | Assignment6/session.c:147-176 | a patient's critical section in place is the Enter step |
| Clinic.Office.SalesEnters | Assignment6/session.c:178-207 | a sales representative's critical section in place is the Enter step |
| Clinic.Office.ReporterEnters | Assignment6/session.c:209-238 | a reporter's critical section in place is the Enter step |
| Clinic.RoomForAll | Assignment6/session.c:385-391 | with at most 20 reporters in the file no argument array overflows |
| TopoSort.StepInv | Assignment5/worker.c:32-97 | every semaphore operation and shared access keeps the invariant, with sync[j] = n - indegree + signalled in-edges - n if j has passed |
| TopoSort.PrefixOrdered | Assignment5/worker.c:57-58 | in every reachable state T[0..idx) holds distinct nodes, each after all its predecessors |
| TopoSort.AwakeOrdered | Assignment5/boss.c:98-118 | when the boss is awake T is a topological order |
| TopoSort.AcyclicNotStuck | Assignment5/worker.c:34-38 | on an acyclic graph no reachable state is stuck before the boss is awake |
| TopoSort.CyclicWaits | Assignment5/worker.c:34-38 | a node on a cycle never passes its semaphore |
| TopoSort.BossWakesIffAcyclic | Assignment5/boss.c:98-103 | every run is finite, and one that can go no further has woken the boss iff the graph is acyclic |
| TopoSort.CyclicNeverNotifies | Assignment5/boss.c:98-103 | with a cycle, self-loops included, the notifications never reach n |
| Graphs.NoSourceMeansCycle | Assignment5/boss.c:73-84 | a set of nodes in which everybody has a predecessor contains a cycle |
| Graphs.OrderedIsAcyclic | Assignment5/boss.c:110-118 | a graph with a topological order has no cycle |
| Graphs.EdgeIsEntry | Assignment5/boss.c:77 | row i, column j of the matrix is the edge from i to j |
| Graphs.OrderOnEntries | Assignment5/boss.c:113 | in a topological order no later node has an entry 1 for an earlier one |
| TopoSystem.Shared.constructor | Assignment5/boss.c:43-94 | the boss's set-up gives the initial state of the graph it read |
| TopoSystem.Shared.SubtractInDegrees | Assignment5/boss.c:74-84 | the nested loops set semaphore j to n minus the entries 1 in column j, the indegree |
| TopoSystem.Shared.WorkerStep | Assignment5/worker.c:34-97 | one semaphore operation or access of a worker over the shared arrays; signalling raises semaphore j iff the entry of its row in column j is 1 |
| TopoSystem.Shared.Step | Assignment5/worker.c:34-97 | a worker's step in place is the step of the state machine and keeps the invariant |
| TopoSystem.Shared.CheckOrder | Assignment5/boss.c:111-118 | the check loop succeeds iff no later node of T has a matrix entry 1 for an earlier one |
| TopoSystem.Shared.BossStep | Assignment5/boss.c:98-103 | waiting for n notifications in place is the Boss step |
| TopoSystem.Shared.Finish | Assignment5/boss.c:98-119 | once the boss wakes the check passes: T is a topological order and no later node of T has a matrix entry 1 for an earlier one |
| Shuffle.Run | Assignment5/gengraph.c:17-21 | the shuffle in place, round by round, is a permutation for every random choice |
| Shuffle.ShuffledPermutes | Assignment5/gengraph.c:17-21 | whatever is drawn the list stays a permutation |
| Shuffle.EveryPermutation | Assignment5/gengraph.c:17-21 | every permutation can come out |
| GraphGen.Generate | Assignment5/gengraph.c:17-28 | every entry written is the coin of its pair of positions or 0 |
| GraphGen.GeneratedBinary | Assignment5/gengraph.c:22-28 | every entry of the matrix is assigned, with 0 or 1 |
| GraphGen.GeneratedOrdered | Assignment5/gengraph.c:22-28 | the permutation is a topological order of the generated graph |
| GraphGen.PrintedGraph | Assignment5/gengraph.c:29-33 | the rows printed one after the other are read by the boss as the generated graph |
| GraphGen.GeneratedSucceeds | Assignment5/gengraph.c:22-33 | every run of boss and workers on the printed matrix that can go no further has woken the boss, with every node in T once and no later node having an edge to an earlier one |
| Barrier.StepInv | Assignment7/foothread.c:287-320 | every operation inside the wait function keeps the counting invariant |
| Barrier.TokenCount | Assignment7/foothread.c:293-308 | returns never exceed max times releases, which never exceed arrivals; with the mutex free arrivals are max times releases plus the count |
| Barrier.TokensForBlocked | Assignment7/foothread.c:296-319 | with the mutex free there is one token or one uncompleted arrival per blocked thread |
| Barrier.InsideCanStep | Assignment7/foothread.c:294-301 | a thread inside the mutex is never stopped, not even by the zero-token operation of a barrier for one |
| BarrierRuns.RunTokens | Assignment7/foothread.c:254-320 | for any number of threads and uses nobody returns before max threads have arrived |
| TreeProgram.FooBarrier.WaitStep | Assignment7/foothread.c:287-320 | the wait function, operation by operation, on the barrier's fields |
| TreeProgram.FooBarrier.constructor | Assignment7/foothread.c:254-285 | a fresh barrier: no tokens, mutex free, count zero |
| TreeProgram.FooMutex.Lock | Assignment7/foothread.c:218-225 | locking takes the semaphore and notes the owner |
| TreeProgram.FooMutex.Unlock | Assignment7/foothread.c:227-244 | unlocking a free mutex or somebody else's is refused and changes nothing |
| TreeSum.PassedMeansArrived | Assignment7/computesum.c:40-66 | when one user has passed a barrier of the tree every user has arrived there |
| TreeSum.ChildrenFirst | Assignment7/computesum.c:43-55 | nobody passes its own barrier before each child has added up its own children and added to it |
| TreeSumProofs.StepInv | Assignment7/computesum.c:26-67 | every step keeps the invariant, with the values in the tree adding up to the leaf inputs read |
| TreeSumProofs.BarrierSizes | Assignment7/computesum.c:111-115 | each barrier is made for exactly the threads that use it |
| TreeSumProofs.NoDeadlock | Assignment7/computesum.c:26-70 | a reachable state in which nobody can move has every thread finished |
| TreeSumProofs.RootHasAll | Assignment7/computesum.c:64-67 | when the root is about to print it holds the sum of all leaf inputs |
| TreeSumProofs.TreeSumCorrect | Assignment7/computesum.c:26-67 | for every rooted tree and interleaving runs are finite and end with everybody finished and the sum of the leaf inputs printed once |
| TreeSumProofs.RunChildrenFirst | Assignment7/computesum.c:43-55 | in every reachable state a node past its barrier has every child's value |
| TreeProgram.ReadTree | Assignment7/computesum.c:87-99 | the reading loop fills parents and child lists as the file says |
| TreeProgram.KidsCount | Assignment7/computesum.c:91-95 | the number of children read is the number of threads below a node |
| TreeProgram.Program.constructor | Assignment7/computesum.c:87-115 | reading a tree file and sizing the barriers gives the initial state |
| TreeProgram.Program.Step | Assignment7/computesum.c:26-67 | a thread's step in place is the step of the state machine |
| TreeProgram.Program.StepSection | Assignment7/computesum.c:29-59 | reading input and adding to the parent under the tree mutex, in place |
| TreeProgram.Program.StepBarrier | Assignment7/computesum.c:40-66 | an operation at the barrier of the thread's place, in place |
| TreeGen.DrawRange | Assignment7/gentree.c:25-28 | exactly the numbers from 0 or 1 up to 5 or the remaining can be drawn |
| TreeGen.Generate | Assignment7/gentree.c:14-35 | for every random choice the loop ends with one tree: the root first in the permutation, everybody else below the earlier position that drew it |
| TreeGen.Assign | Assignment7/gentree.c:21-35 | the parent-assignment loop terminates by (remaining, nextchild - nextparent) and gives each position the parent that drew it |
| TreeGen.Attach | Assignment7/gentree.c:30-33 | the inner loop hangs the drawn children below the next parent |
| TreeGen.GeneratedValid | Assignment7/gentree.c:21-35 | the output is one rooted tree from whose root every node is reachable, depth decreasing along parents |
| TreeProgram.GeneratedFile | Assignment7/gentree.c:37-39 | the lines written describe each node once, the root by itself |
| TreeGen.GeneratedSums | Assignment7/gentree.c:21-39 | every run of the tree program on generated output that can go no further has printed the sum of the leaf inputs |
| DirSync.MirrorIff | Assignment9/main.c:60-162 | the destination becomes a copy of the source, names, kinds, contents, times and modes, iff no file faces a directory and equal size and time mean equal contents |
| DirSync.MirrorFails | Assignment9/main.c:85-98 | one input for each of the two ways the copy fails |
| DirSync.FreshCopy | Assignment9/main.c:102-106 | into an empty directory the copy is always exact |
| DirSync.Idempotent | Assignment9/main.c:46-166 | a second run changes nothing, whatever the first one met |
| DirSync.SilentIff | Assignment9/main.c:46-166 | a second run prints nothing iff no file faced a directory |
| DirSync.CopiedTouched | Assignment9/main.c:130-149 | copying, then setting time and mode, gives the specified entry |
| DirMeaning.SyncedMeaning | Assignment9/main.c:60-162 | what is at each path afterwards, in terms of what the two trees had there; what hides behind a source file stays |
| DirMeaning.LineMeaning | Assignment9/main.c:60-162 | for every path and depth: '+' iff only the source has it, 'o' iff a source file faces something of other size or time, '-' iff only the destination has it or a file faces a source directory, 't' and 'p' iff time, or kind or mode, still differ |
| DirMeaning.NothingElse | Assignment9/main.c:60-162 | nothing else is printed |
| DirMeaning.RemovalMeaning | Assignment9/main.c:14-44 | removing prints '-' for every path of the removed tree and nothing else |
| DirMeaning.ListingMeaning | Assignment9/main.c:100-117 | a directory's listing changes iff some entry at it is created, recreated or removed |
| DirProgram.Directory.SyncFrom | Assignment9/main.c:46-166 | the two loops in place, in any order of names, produce Synced, print exactly the lines LineMeaning describes, and report whether the listing changed |
| DirProgram.Directory.CopyAll | Assignment9/main.c:60-118 | the first loop copies, recreates, descends or leaves alone every name of the source |
| DirProgram.Directory.CopyEntry | Assignment9/main.c:65-117 | one name of the source: copied, overwritten, created, descended into, or a directory left in place, with the lines for it |
| DirProgram.Directory.TouchAll | Assignment9/main.c:120-162 | the second loop sets times and modes and removes what the source lacks |
| DirProgram.Directory.TouchEntry | Assignment9/main.c:127-161 | one name of the destination: time and mode set where they differ, or removed |
| DirProgram.Directory.RemoveAll | Assignment9/main.c:14-44 | recursive removal empties a directory and prints every entry of it |
| DirProgram.Directory.RemoveOne | Assignment9/main.c:31-39 | a file is removed, a directory with everything below, and printed |
| ProdCons.StepInv | Assignment4/prodconsV2.c:90-171 | every access to a shared cell and every semaphore operation keeps the invariant |
| ProdCons.RunReads | Assignment4/prodconsV2.c:92-105 | a consumer about to read finds the current item, its own, unread: never a new tag with an old item |
| ProdCons.RunAgrees | Assignment4/prodconsV2.c:131-182 | each consumer has read its items in order and once each; when the producer reports, all of them, with equal counts and checksums on both sides |
| ProdConsProgress.SomebodyAdvances | Assignment4/prodconsV2.c:90-171 | in every reachable state short of the end somebody can take a step towards it |
| ProdConsProgress.RunCanFinish | Assignment4/prodconsV2.c:90-176 | from every reachable state the program can run to its end |
| ProdConsSystem.Exchange.Produce | Assignment4/prodconsV2.c:131-171 | the producer's step on M, the semaphore and its tallies is the step of the state machine |
| ProdConsSystem.Exchange.Report | Assignment4/prodconsV2.c:173-182 | the producer reports once all its children have exited |
| ProdConsSystem.Exchange.Consume | Assignment4/prodconsV2.c:90-108 | a consumer's step on M and its counters is the step of the state machine |

## Left out

- Replies of the memory unit: all replies share one message type, so the model has the requester pick its reply up in the step that serves the request, as the scheduler's pause is meant to ensure.
- f larger than the total page count, and f = 0: the proportional split would write past a page table, and with no frame nobody progresses; `ValidSplit` asks for 1 <= f <= total.
- Processes that are never scheduled by the operating system: `FairRun` assumes that every process is eventually started and eventually joins the queue after a fault.
- Reference strings are arbitrary inputs: their random generation, the injected illegal page, the results file and its reordering are not modelled.
- System V keys, shared-memory and process plumbing, signals, printing of progress messages and real time are not modelled; integers are unbounded.
- EventQueue.EventQ.constructor: takes the parsed records and assumes an end mark and at most 128 records, as the file format and the array do.
- SessionSchedule.RunSchedule: assumes durations are not negative, as the arrivals generator makes them; completion and conservation hold for all durations.
- Session condition variables: a wait with its flag test is one enabling condition, spurious wake-ups being absorbed by the flag; a visitor's critical section is one step.
- Clinic.Office.RunAssistant: assumes room for the arrival it takes in, which `RoomForAll` derives for files with at most 20 reporters.
- Workers of the topological sort start after the boss's set-up is done; there is one worker per node.
- foothread_create, foothread_exit and SEM_UNDO adjustments at thread exit are not modelled; a tree-sum thread ends after the root barrier.
- BarrierRuns.RunTokens: no claim that a reused barrier separates rounds, because a fast thread can take a slow thread's token.
- ProdConsProgress.RunCanFinish: says that the end stays reachable, not that every schedule reaches it, because polling processes can be scheduled for ever.
- Producer with no consumers: the random addressee needs at least one.
- DirSync.SilentIff: lines are compared as a set; access times, sub-second times, umask, permission failures, symbolic links and special files are not modelled, and the root's own time and mode are not synchronised by the program.
- Assignment4/prodcons.c publishes the tag before the item and promises no agreement; Assignments 1 to 3, Assignment6/arrival.c and the course material are not modelled.
