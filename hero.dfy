/**
 * The typewriter in the hero banner (client/src/components/Hero.tsx, lines
 * 13-42). Its state is the triple (role index, displayed text, deleting flag);
 * each run of the effect takes one of four steps, after a delay:
 * type one character, pause and start deleting, delete one character, or move
 * on to the next role.
 */
module Hero {
  import opened Seqs

  /** The roles the banner cycles through. */
  const Roles: seq<string> := ["Full-stack Developer", "Data Analyst", "Data Engineer", "Database Specialist"]

  /** The component's three state variables. */
  datatype TypeState = TypeState(roleIndex: nat, text: string, deleting: bool)

  /** The state on mount. */
  const Initial := TypeState(0, "", false)

  /** The states the typewriter can be in: a valid role, and a prefix of it on screen. */
  predicate Valid(s: TypeState)
  {
    s.roleIndex < |Roles| && s.text <= Roles[s.roleIndex]
  }

  /** The step one run of the effect takes. */
  datatype Action = Type | Pause | Wrap | Delete

  function ActionOf(s: TypeState): Action
    requires s.roleIndex < |Roles|
  {
    if !s.deleting && s.text == Roles[s.roleIndex] then Pause
    else if s.deleting && s.text == "" then Wrap
    else if s.deleting then Delete
    else Type
  }

  /** The state after one run of the effect (and its timer, if it sets one). */
  function Next(s: TypeState): (r: TypeState)
    requires s.roleIndex < |Roles|
    ensures r.roleIndex < |Roles|
  {
    var role := Roles[s.roleIndex];
    match ActionOf(s)
    case Pause => s.(deleting := true)
    case Wrap => TypeState((s.roleIndex + 1) % |Roles|, s.text, false)
    case Delete => s.(text := Take(role, |s.text| - 1))
    case Type => s.(text := Take(role, |s.text| + 1))
  }

  /** How long the step waits before its state change, in milliseconds (0: at once). */
  function DelayMs(s: TypeState): (ms: nat)
    requires s.roleIndex < |Roles|
    ensures ActionOf(s) == Pause ==> ms == 2000
    ensures ActionOf(s) == Wrap ==> ms == 0
    ensures ActionOf(s) == Delete ==> ms == 50
    ensures ActionOf(s) == Type ==> ms == 100
  {
    var typeSpeed := if s.deleting then 50 else 100;
    if !s.deleting && s.text == Roles[s.roleIndex] then 2000
    else if s.deleting && s.text == "" then 0
    else typeSpeed
  }

  /**
   * Each step keeps the state valid, and changes it as the banner promises:
   * typing and deleting change the text by exactly one character, the pause only
   * sets the deleting flag, and the wrap only moves to the next role.
   */
  lemma StepEffect(s: TypeState)
    requires Valid(s)
    ensures Valid(Next(s))
    ensures ActionOf(s) == Type ==>
      Next(s).text == s.text + [Roles[s.roleIndex][|s.text|]] && Next(s).roleIndex == s.roleIndex && !Next(s).deleting
    ensures ActionOf(s) == Delete ==>
      Next(s).text + [s.text[|s.text| - 1]] == s.text && Next(s).roleIndex == s.roleIndex && Next(s).deleting
    ensures ActionOf(s) == Pause ==> Next(s) == s.(deleting := true)
    ensures ActionOf(s) == Wrap ==> Next(s) == TypeState((s.roleIndex + 1) % |Roles|, "", false)
  {
    var role := Roles[s.roleIndex];
    if ActionOf(s) == Type {
      TypeOne(role, s.text);
    } else if ActionOf(s) == Delete {
      DeleteOne(role, s.text);
    }
  }

  /** Typing into a proper prefix of a role adds the role's next character. */
  lemma TypeOne(role: string, text: string)
    requires text <= role && text != role
    ensures Take(role, |text| + 1) == text + [role[|text|]]
  {
    assert role[..|text| + 1] == role[..|text|] + [role[|text|]];
  }

  /** Deleting from a non-empty prefix of a role removes its last character and leaves a prefix. */
  lemma DeleteOne(role: string, text: string)
    requires text <= role && text != ""
    ensures Take(role, |text| - 1) + [text[|text| - 1]] == text
  {
    assert text == role[..|text|];
    assert role[..|text|] == role[..|text| - 1] + [role[|text| - 1]];
  }

  /** The state after `n` runs of the effect. */
  function Run(s: TypeState, n: nat): (r: TypeState)
    requires s.roleIndex < |Roles|
    ensures r.roleIndex < |Roles|
    decreases n
  {
    if n == 0 then s else Run(Next(s), n - 1)
  }

  /** The displayed text is a prefix of the current role in every reachable state. */
  lemma {:induction false} AlwaysValid(n: nat)
    ensures Valid(Run(Initial, n))
  {
    ValidRun(Initial, n);
  }

  lemma {:induction false} ValidRun(s: TypeState, n: nat)
    requires Valid(s)
    ensures Valid(Run(s, n))
    decreases n
  {
    if n > 0 {
      StepEffect(s);
      ValidRun(Next(s), n - 1);
    }
  }

  /** Running `a` steps and then `b` more is running `a + b` steps. */
  lemma {:induction false} RunAdd(s: TypeState, a: nat, b: nat)
    requires s.roleIndex < |Roles|
    ensures Run(Run(s, a), b) == Run(s, a + b)
  {
    RunIsIterate(s, a);
    RunIsIterate(Run(s, a), b);
    RunIsIterate(s, a + b);
    IterateAdd(Advance, s, a, b);
  }

  /** The step as a total function, leaving a state with no valid role as it is. */
  function Advance(s: TypeState): TypeState
  {
    if s.roleIndex < |Roles| then Next(s) else s
  }

  /** `n` applications of `f` to `s`. */
  function Iterate<S>(f: S -> S, s: S, n: nat): S
    decreases n
  {
    if n == 0 then s else Iterate(f, f(s), n - 1)
  }

  /** Applying `f` `a` times and then `b` times is applying it `a + b` times. */
  lemma {:induction false} IterateAdd<S>(f: S -> S, s: S, a: nat, b: nat)
    ensures Iterate(f, Iterate(f, s, a), b) == Iterate(f, s, a + b)
    decreases a
  {
    if a > 0 {
      IterateAdd(f, f(s), a - 1, b);
    }
  }

  /** From a valid role, `Run` is iterating the step. */
  lemma {:induction false} RunIsIterate(s: TypeState, n: nat)
    requires s.roleIndex < |Roles|
    ensures Run(s, n) == Iterate(Advance, s, n)
    decreases n
  {
    if n > 0 {
      RunIsIterate(Next(s), n - 1);
    }
  }

  /** Typing from the first `m` characters of role `i`, `n` more steps show the first `m + n`. */
  lemma {:induction false} Typing(i: nat, m: nat, n: nat)
    requires i < |Roles| && m + n <= |Roles[i]|
    ensures Run(TypeState(i, Roles[i][..m], false), n) == TypeState(i, Roles[i][..m + n], false)
    decreases n
  {
    if n > 0 {
      var s := TypeState(i, Roles[i][..m], false);
      assert ActionOf(s) == Type;
      assert Next(s) == TypeState(i, Roles[i][..m + 1], false);
      Typing(i, m + 1, n - 1);
    }
  }

  /** Deleting from the first `m` characters of role `i`, `n` steps leave the first `m - n`. */
  lemma {:induction false} Deleting(i: nat, m: nat, n: nat)
    requires i < |Roles| && n <= m <= |Roles[i]|
    ensures Run(TypeState(i, Roles[i][..m], true), n) == TypeState(i, Roles[i][..m - n], true)
  {
    if n > 0 {
      var s := TypeState(i, Roles[i][..m], true);
      assert ActionOf(s) == Delete;
      assert Next(s) == TypeState(i, Roles[i][..m - 1], true);
      Deleting(i, m - 1, n - 1);
    }
  }

  /** From an empty text, exactly as many typing steps as the role has characters spell the role. */
  lemma TypesWholeRole(i: nat)
    requires i < |Roles|
    ensures Run(TypeState(i, "", false), |Roles[i]|) == TypeState(i, Roles[i], false)
  {
    Typing(i, 0, |Roles[i]|);
    assert Roles[i][..0] == "" && Roles[i][..|Roles[i]|] == Roles[i];
  }

  /**
   * One full cycle: type the role, pause, delete it, and move on, in
   * `2 * |role| + 2` steps; so the roles follow each other 0, 1, 2, 3, 0, ...
   */
  lemma FullCycle(i: nat)
    requires i < |Roles|
    ensures Run(TypeState(i, "", false), 2 * |Roles[i]| + 2) == TypeState((i + 1) % |Roles|, "", false)
  {
    var len := |Roles[i]|;
    TypeThenPause(i);
    DeleteThenWrap(i);
    RunAdd(TypeState(i, "", false), len + 1, len + 1);
  }

  /** Typing the whole role and pausing takes `|role| + 1` steps and ends deleting. */
  lemma TypeThenPause(i: nat)
    requires i < |Roles|
    ensures Run(TypeState(i, "", false), |Roles[i]| + 1) == TypeState(i, Roles[i], true)
  {
    var typed := TypeState(i, Roles[i], false);
    TypesWholeRole(i);
    RunAdd(TypeState(i, "", false), |Roles[i]|, 1);
    RunOne(typed);
  }

  /** Deleting the whole role and wrapping takes `|role| + 1` steps and starts the next role. */
  lemma DeleteThenWrap(i: nat)
    requires i < |Roles|
    ensures Run(TypeState(i, Roles[i], true), |Roles[i]| + 1) == TypeState((i + 1) % |Roles|, "", false)
  {
    var role := Roles[i];
    var len := |role|;
    assert role[..len] == role && role[..0] == "";
    Deleting(i, len, len);
    RunAdd(TypeState(i, role, true), len, 1);
    RunOne(TypeState(i, "", true));
  }

  lemma RunOne(s: TypeState)
    requires s.roleIndex < |Roles|
    ensures Run(s, 1) == Next(s)
  {
  }

  /** The banner's state, updated in place one effect run at a time. */
  class Typewriter {
    var currentRoleIndex: nat
    var displayText: string
    var isDeleting: bool

    function State(): TypeState
      reads this
    {
      TypeState(currentRoleIndex, displayText, isDeleting)
    }

    constructor ()
      ensures State() == Initial
    {
      currentRoleIndex, displayText, isDeleting := 0, "", false;
    }

    /** One run of the effect, with its timer; returns the delay it waited. */
    method Step() returns (delayMs: nat)
      requires Valid(State())
      modifies this
      ensures Valid(State())
      ensures State() == Next(old(State())) && delayMs == DelayMs(old(State()))
    {
      StepEffect(State());
      var currentRole := Roles[currentRoleIndex];
      var typeSpeed := if isDeleting then 50 else 100;
      if !isDeleting && displayText == currentRole {
        delayMs := 2000;
        isDeleting := true;
        return;
      }
      if isDeleting && displayText == "" {
        delayMs := 0;
        isDeleting := false;
        currentRoleIndex := (currentRoleIndex + 1) % |Roles|;
        return;
      }
      delayMs := typeSpeed;
      if isDeleting {
        displayText := Take(currentRole, |displayText| - 1);
      } else {
        displayText := Take(currentRole, |displayText| + 1);
      }
    }
  }
}
