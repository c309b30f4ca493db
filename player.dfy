/** A Player: a name and a running score. */
module Players {

  class Player {
    const name: string
    var points: int

    /** A player with the given name and no points. */
    constructor (name: string)
      ensures this.name == name && points == 0
    {
      this.name := name;
      points := 0;
    }

    /** Adds `numPoints` to the score. */
    method AwardPoints(numPoints: int)
      modifies this
      ensures points == old(points) + numPoints
    {
      points := points + numPoints;
    }
  }
}
