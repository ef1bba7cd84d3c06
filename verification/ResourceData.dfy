/** Terraform's per-resource state: a typed record that `d.Get` reads and `d.Set` overwrites
    field by field. A field that was never set holds its zero value. */
module ResourceStore {

  class ResourceData<State> {
    var state: State

    constructor (state: State)
      ensures this.state == state
    {
      this.state := state;
    }
  }
}
