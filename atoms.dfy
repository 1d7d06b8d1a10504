/** The atomic-structure collaborator, reduced to what the FEFF interface reads and writes:
    an ordered sequence of atoms, each with an atomic number, a position and a tag. */
module AtomicStructure {

  datatype Position = Position(x: real, y: real, z: real)

  /** `Atom(symbol=number, position=(x, y, z), tag=tag)`. */
  datatype Atom = Atom(number: int, position: Position, tag: int)
}
