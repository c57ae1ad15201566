/** An optional value: `undefined` / `null` in the dashboard's TypeScript, or a missing find result. */
module Wrappers {
  datatype Option<+T> = None | Some(value: T)
}
