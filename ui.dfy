/** What the model keeps of egui: which UI closure a connector or a node body carries. */
module Ui {

  /** A `Box<dyn FnOnce(&mut Ui)>`: either the installed no-op `|_| {}` or a widget the node
      draws (a label, a slider), named for the reader. Drawing is not modelled. */
  datatype UiCallback = NoOpUi | Widget(name: string)

  /** A graph-space point (`Pos2`); positions are carried but no geometry is modelled. */
  datatype Pos2 = Pos2(x: real, y: real)
}
