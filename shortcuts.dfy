/** The global-shortcut bindings of main.js: the six defaults and the right-biased merge used
    when settings are loaded and when the renderer sends new bindings. */
module Shortcuts {

  /** Action name to Electron accelerator. */
  type Bindings = map<string, string>

  /** The bindings main.js starts with. */
  const Defaults: Bindings := map[
    "startStop" := "CommandOrControl+Alt+V",
    "pauseResume" := "CommandOrControl+Shift+P",
    "moveUp" := "CommandOrControl+Alt+Up",
    "moveDown" := "CommandOrControl+Alt+Down",
    "moveLeft" := "CommandOrControl+Alt+Left",
    "moveRight" := "CommandOrControl+Alt+Right"
  ]

  /** `{ ...current, ...updates }`: every action of either side is bound, and where both bind
      an action the update wins. */
  function Merge(current: Bindings, updates: Bindings): (merged: Bindings)
    ensures merged.Keys == current.Keys + updates.Keys
    ensures forall a :: a in updates ==> merged[a] == updates[a]
    ensures forall a :: a in current && a !in updates ==> merged[a] == current[a]
  {
    current + updates
  }

  /** Merging never unbinds an action, so the six default actions stay bound whatever the
      settings file or the renderer sends. */
  lemma MergeKeepsActions(current: Bindings, updates: Bindings)
    requires Defaults.Keys <= current.Keys
    ensures Defaults.Keys <= Merge(current, updates).Keys
  {
  }

  /** Sending the same update twice is the same as sending it once. */
  lemma MergeIdempotent(current: Bindings, updates: Bindings)
    ensures Merge(Merge(current, updates), updates) == Merge(current, updates)
  {
  }
}
