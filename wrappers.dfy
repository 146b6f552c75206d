/** Option and the result of an operation that may panic. */
module Wrappers {

  datatype Option<+T> = None | Some(value: T)

  /** Why the program panics: every `unwrap` that can fail in the modelled core,
      and the `u8` overflow of the one-to-N node's output counter (a debug build). */
  datatype Panic =
    | DragInfoMissing          // `link_drag_info.unwrap()` while a drop is pending and no drag is recorded
    | InputConnectorMissing    // `.nth(start_index).unwrap()` on the node's inputs of this tick
    | OutputConnectorMissing   // `.nth(end_index).unwrap()` on the node's outputs of this tick
    | InputConnectorReused     // `input_info_slotmap.remove(..).unwrap()` on an already used input
    | OutputConnectorReused    // `output_info_slotmap.remove(..).unwrap()` on an already used output
    | DowncastFailed           // `downcast::<T>().unwrap()` inside an input callback
    | OutputCountOverflow      // `output_count.add_assign(1)` at 255

  /** A computation that either yields a value or panics. */
  datatype Result<+T> = Ok(value: T) | Err(panic: Panic)
}
