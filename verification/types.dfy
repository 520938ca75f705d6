/** The records shared by the scene, the panels and the tutor (types.ts). */
module Types {

  /** A value that may be absent: JavaScript's `T | null`. */
  datatype Option<T> = None | Some(value: T)

  /** A triple of reals: a position, an Euler rotation or a per-axis scale. */
  datatype Vec3 = Vec3(x: real, y: real, z: real)

  const Origin: Vec3 := Vec3(0.0, 0.0, 0.0)

  /** The closed enumeration of shape tags; a record cannot carry any other tag. */
  datatype ShapeType = Sphere | Capsule | OvalSphere | Irregular | Box | TorusKnot | RoundedBox

  /** The 2-D CSS placement kept for list views (percent strings). */
  datatype Placement = Placement(top: string, left: string, width: string, height: string)

  /** One catalog entry. The source's `function` field is called `purpose` here,
      because `function` is a Dafny keyword. */
  datatype Organelle = Organelle(
    id: string,
    name: string,
    shortDescription: string,
    structure: string,
    purpose: string,
    color: string,
    hexColor: string,
    position: Placement,
    position3d: Vec3,
    scale3d: Vec3,
    rotation3d: Option<Vec3>,
    shapeType: ShapeType,
    icon: string,
    image: string)

  datatype Role = User | Model

  datatype ChatMessage = ChatMessage(role: Role, text: string)
}
