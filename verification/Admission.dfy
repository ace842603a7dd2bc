/** Resource admission: what a task reserves, what the platform's share of the
    machine is, and the three places that compare the two. */
module Admission {
  import opened Contracts

  /** The platform owns the fraction `num/den`, in (0, 1], of the machine. */
  datatype Capacity = Capacity(cpuCores: nat, memoryBytes: nat, num: nat, den: nat)
  {
    predicate Valid() {
      0 < cpuCores && 0 < memoryBytes && 0 < num <= den
    }
  }

  datatype Config = Config(capacity: Capacity, defaultCpu: nat, defaultMemory: nat)
  {
    predicate Valid() {
      capacity.Valid() && 0 < defaultCpu && 0 < defaultMemory
    }
  }

  datatype Reservation = Reservation(cpu: nat, memory: nat)

  function Max(a: int, b: int): int { if a < b then b else a }

  function CeilShare(amount: nat, num: nat, den: nat): nat
    requires 0 < den
  {
    (amount * num + den - 1) / den
  }

  function FloorShare(amount: nat, num: nat, den: nat): nat
    requires 0 < den
  {
    amount * num / den
  }

  /** The budgets used at submission and at the claim. */
  function CpuBudget(c: Capacity): nat
    requires 0 < c.den
  {
    Max(1, CeilShare(c.cpuCores, c.num, c.den))
  }

  function MemoryBudget(c: Capacity): nat
    requires 0 < c.den
  {
    Max(1, CeilShare(c.memoryBytes, c.num, c.den))
  }

  /** What a task reserves, whether or not it asked for anything. */
  function ReservationFor(config: Config, task: TaskSpec): ResourceRequest {
    var asked := task.resources;
    ResourceRequest(
      if asked.Some? then asked.value.cpuSeconds else None,
      Some(if asked.Some? && asked.value.cpuCores.Some? then asked.value.cpuCores.value else config.defaultCpu),
      Some(if asked.Some? && asked.value.memoryBytes.Some? then asked.value.memoryBytes.value else config.defaultMemory),
      if asked.Some? then asked.value.processes else None)
  }

  /** The row the claim inserts for that request. */
  function Effective(config: Config, task: TaskSpec): Reservation {
    var request := ReservationFor(config, task);
    Reservation(request.cpuCores.value, request.memoryBytes.value)
  }

  /** The claim's comparison: does a reservation fit beside what is held? */
  predicate Fits(c: Capacity, heldCpu: nat, heldMemory: nat, want: Reservation)
    requires 0 < c.den
  {
    heldCpu + want.cpu <= CpuBudget(c) && heldMemory + want.memory <= MemoryBudget(c)
  }

  /** Submission's resource check (without the host-measurement question). */
  predicate AcceptedAtSubmission(config: Config, task: TaskSpec)
    requires 0 < config.capacity.den
  {
    var want := Effective(config, task);
    && config.defaultMemory <= MemoryBudget(config.capacity)
    && want.cpu <= CpuBudget(config.capacity)
    && want.memory <= MemoryBudget(config.capacity)
    && (want.memory > config.defaultMemory ==>
          "memory_approval" in task.labels && task.labels["memory_approval"] == "manual")
  }

  /** The operator's explanation: "claimable", as opposed to "resource". */
  predicate SaysClaimable(config: Config, heldCpu: nat, heldMemory: nat, task: TaskSpec)
    requires 0 < config.capacity.den
  {
    var c, want := config.capacity, Effective(config, task);
    && want.cpu <= FloorShare(c.cpuCores, c.num, c.den) - heldCpu
    && want.memory <= FloorShare(c.memoryBytes, c.num, c.den) - heldMemory
  }

  // ---- what the numbers are --------------------------------------------------------------

  /** What a task asks for, or the configured default where it is silent. */
  function AskedCpu(config: Config, task: TaskSpec): nat {
    match task.resources
    case Some(q) => if q.cpuCores.Some? then q.cpuCores.value else config.defaultCpu
    case None => config.defaultCpu
  }

  function AskedMemory(config: Config, task: TaskSpec): nat {
    match task.resources
    case Some(q) => if q.memoryBytes.Some? then q.memoryBytes.value else config.defaultMemory
    case None => config.defaultMemory
  }

  /** The reservation is what the task asks for; the bounds enforced on its process keep
      the CPU seconds and processes it declared, and declare no others. */
  lemma ReservationIsAsked(config: Config, task: TaskSpec)
    ensures Effective(config, task) == Reservation(AskedCpu(config, task), AskedMemory(config, task))
    ensures var q := ReservationFor(config, task);
            && q.cpuCores == Some(AskedCpu(config, task)) && q.memoryBytes == Some(AskedMemory(config, task))
            && (task.resources.Some? ==>
                  q.cpuSeconds == task.resources.value.cpuSeconds && q.processes == task.resources.value.processes)
            && (task.resources.None? ==> q.cpuSeconds.None? && q.processes.None?)
  {
  }

  /** The claim's share is the least whole number not below the fraction, the
      explanation's the greatest not above it. */
  lemma SharesAreTight(amount: nat, num: nat, den: nat)
    requires 0 < den
    ensures var up := CeilShare(amount, num, den);
            amount * num <= up * den && (0 < up ==> (up - 1) * den < amount * num)
    ensures var down := FloorShare(amount, num, den);
            down * den <= amount * num < (down + 1) * den
  {
    ShareRounding(amount, num, den);
    var x, down := amount * num, FloorShare(amount, num, den);
    assert x == down * den + x % den && (down + 1) * den == down * den + den;
    if x % den != 0 { assert CeilShare(amount, num, den) == down + 1; }
    if x % den == 0 && 0 < down { assert (down - 1) * den == down * den - den; }
  }

  /** Submission accepts a task if and only if the default reservation fits the memory
      budget, the request fits both budgets, and a request above the default memory
      carries a manual approval. */
  lemma SubmissionAcceptsIff(config: Config, task: TaskSpec)
    requires 0 < config.capacity.den
    ensures AcceptedAtSubmission(config, task) <==>
            && config.defaultMemory <= MemoryBudget(config.capacity)
            && AskedCpu(config, task) <= CpuBudget(config.capacity)
            && AskedMemory(config, task) <= MemoryBudget(config.capacity)
            && (AskedMemory(config, task) <= config.defaultMemory ||
                ("memory_approval" in task.labels && task.labels["memory_approval"] == "manual"))
    ensures var c := config.capacity;
            && CpuBudget(c) == (if CeilShare(c.cpuCores, c.num, c.den) == 0 then 1 else CeilShare(c.cpuCores, c.num, c.den))
            && MemoryBudget(c) ==
               (if CeilShare(c.memoryBytes, c.num, c.den) == 0 then 1 else CeilShare(c.memoryBytes, c.num, c.den))
  {
  }

  /** The rounding of one share: floor and ceiling agree when the share is whole,
      and otherwise differ by exactly one. */
  lemma ShareRounding(amount: nat, num: nat, den: nat)
    requires 0 < den
    ensures CeilShare(amount, num, den) ==
            FloorShare(amount, num, den) + (if amount * num % den == 0 then 0 else 1)
  {
    var x := amount * num;
    var q, r := x / den, x % den;
    assert x == q * den + r;
    if r == 0 {
      assert x + den - 1 == q * den + (den - 1);
      QuotientOf(q, den - 1, den);
    } else {
      assert x + den - 1 == (q + 1) * den + (r - 1);
      QuotientOf(q + 1, r - 1, den);
    }
  }

  lemma QuotientOf(q: nat, r: nat, den: nat)
    requires r < den
    ensures (q * den + r) / den == q
  {
    var y := (q * den + r) / den;
    assert q * den + r == y * den + (q * den + r) % den;
    if y < q {
      MultipleGap(y, q, den);
    } else if q < y {
      MultipleGap(q, y, den);
    }
  }

  lemma MultipleGap(a: nat, b: nat, den: nat)
    requires a < b
    ensures a * den + den <= b * den
  {
    assert b * den == (a + 1) * den + (b - a - 1) * den;
  }

  /** An accepted task is admitted whenever nothing is reserved, and the exact
      converse: what an idle machine admits is what submission accepts, up to the
      approval label and the default-reservation check. */
  lemma AcceptedIsAdmittedWhenIdle(config: Config, task: TaskSpec)
    requires 0 < config.capacity.den
    ensures AcceptedAtSubmission(config, task) ==> Fits(config.capacity, 0, 0, Effective(config, task))
    ensures Fits(config.capacity, 0, 0, Effective(config, task)) &&
            config.defaultMemory <= MemoryBudget(config.capacity) &&
            "memory_approval" in task.labels && task.labels["memory_approval"] == "manual"
            ==> AcceptedAtSubmission(config, task)
  {
  }

  /** "claimable" is never a false promise, and "resource" is wrong exactly when
      the request would end inside the last, partial unit of the budget: the claim
      rounds the share up where the explanation rounds it down. */
  lemma ClaimableIsAdmitted(config: Config, heldCpu: nat, heldMemory: nat, task: TaskSpec)
    requires config.Valid()
    ensures SaysClaimable(config, heldCpu, heldMemory, task) ==>
            Fits(config.capacity, heldCpu, heldMemory, Effective(config, task))
    ensures var c, want := config.capacity, Effective(config, task);
            var fits := Fits(c, heldCpu, heldMemory, want);
            fits && !SaysClaimable(config, heldCpu, heldMemory, task) <==>
            fits &&
            (|| heldCpu + want.cpu == FloorShare(c.cpuCores, c.num, c.den) + 1
             || heldMemory + want.memory == FloorShare(c.memoryBytes, c.num, c.den) + 1)
  {
    var c := config.capacity;
    ShareRounding(c.cpuCores, c.num, c.den);
    ShareRounding(c.memoryBytes, c.num, c.den);
    PositiveShare(c.cpuCores, c.num, c.den);
    PositiveShare(c.memoryBytes, c.num, c.den);
  }

  lemma PositiveShare(amount: nat, num: nat, den: nat)
    requires 0 < amount && 0 < num && 0 < den
    ensures 1 <= CeilShare(amount, num, den)
  {
    ShareRounding(amount, num, den);
    var x := amount * num;
    assert x == x / den * den + x % den;
    if x / den == 0 {
      assert x == x % den && 0 < x;
    }
  }

  /** A machine whose share is less than one core: the claim admits a one-core
      task that the explanation says cannot start. */
  lemma ExplanationCanBePessimistic()
    ensures exists config: Config, task: TaskSpec ::
              && config.Valid() && task.Valid()
              && Fits(config.capacity, 0, 0, Effective(config, task))
              && !SaysClaimable(config, 0, 0, task)
  {
    var config := Config(Capacity(1, 10, 3, 5), 1, 6);
    var task := TaskSpec("t", "", map[], [], None, None, 1);
    assert Effective(config, task) == Reservation(1, 6);
    assert CeilShare(10, 3, 5) == 6 && CeilShare(1, 3, 5) == 1 && FloorShare(1, 3, 5) == 0;
    assert Fits(config.capacity, 0, 0, Effective(config, task));
    assert !SaysClaimable(config, 0, 0, task);
  }
}
