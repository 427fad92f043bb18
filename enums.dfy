/** The source's `IntEnum` classes. They carry no behaviour: each member has a
    name and an integer value, and becomes an enum-member object when a rule
    returns it. */
module Enums {
  import opened PyObjects

  /** The declared kind of a frame's property. */
  datatype NotionType = GENDER | BOOLEAN | DATE | INTEGER | FLOAT

  /** The declared unit of a frame's property. */
  datatype NotionUnit = NONE | DAY | WEEK | MONTH | YEAR

  datatype AgeClass = CHILD | ADULT
  {
    function AsObj(): Obj {
      match this
      case CHILD => Member("AgeClass", "CHILD", 1)
      case ADULT => Member("AgeClass", "ADULT", 2)
    }
  }

  datatype Gender = MALE | FEMALE
  {
    function AsObj(): Obj {
      match this
      case MALE => Member("Gender", "MALE", 1)
      case FEMALE => Member("Gender", "FEMALE", 2)
    }
  }

  datatype Person = WOMAN | MAN | GIRL | BOY
  {
    function AsObj(): Obj {
      match this
      case WOMAN => Member("Person", "WOMAN", 1)
      case MAN => Member("Person", "MAN", 2)
      case GIRL => Member("Person", "GIRL", 3)
      case BOY => Member("Person", "BOY", 4)
    }
  }
}
