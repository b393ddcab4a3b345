/** Effects and effect rows (crates/etas_effects/src/effect). */
module Effects {
  import opened Prelude

  type TagId = nat
  type TypeId = nat
  type VarId = nat

  datatype ActionRef = ActionRef(tag: TagId, action: nat)

  datatype EffectArg =
    | WildcardArg
    | TypeArg(ty: TypeId)
    | PathArg(segments: seq<string>)
    | StringArg(text: string)
    | IntArg(number: int)

  datatype Effect =
    | Tag(tag: TagId)
    | Action(action: ActionRef)
    | AppliedAction(action: ActionRef, args: seq<EffectArg>)
    | Applied(tag: TagId, types: seq<TypeId>)
    | Var(variable: VarId)
    | Error(ty: TypeId)

  predicate IsAction(e: Effect)
  {
    e.Action? || e.AppliedAction?
  }

  /** An iteration order of effect sets. */
  ghost predicate Enumerates(order: set<Effect> -> seq<Effect>)
  {
    forall s: set<Effect> :: Elems(order(s)) == s
  }

  datatype EffectRow = EffectRow(effects: set<Effect>, open: Option<VarId>)

  const EmptyRow := EffectRow({}, None)

  function Closed(effects: set<Effect>): EffectRow
  {
    EffectRow(effects, None)
  }

  /** `EffectRow::union_assign`: the effects are joined, the first open tail wins. */
  function RowUnion(a: EffectRow, b: EffectRow): EffectRow
  {
    EffectRow(a.effects + b.effects, if a.open.None? then b.open else a.open)
  }

  /** Two tails conflict when both are open on different variables. */
  predicate TailsConflict(a: EffectRow, b: EffectRow)
  {
    a.open.Some? && b.open.Some? && a.open != b.open
  }
}
