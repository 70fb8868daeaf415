# Model3D mesh flattening, in Dafny

This project models the constructor of `Model3D`, the renderable model of a
small OpenGL scene viewer. The constructor does three things:

- It stores the initial pose: position, rotation axis, scale and angle.
- It walks the index streams of every shape that the OBJ loader returned and
  collects each occurrence's `vertex_index` into the index list
  `mesh_indices`.
- It walks the same occurrences again and builds the interleaved vertex buffer
  `fullVertexData`. Each occurrence gets one 8-float record: position (3),
  normal (3), texture coordinate (2). The floats are copied from the loader's
  flat `vertices`, `normals` and `texcoords` pools.

Layout of the project:

- `tinyobj.dfy` (module `TinyObj`) holds the part of the loader's result that
  the constructor reads. Each occurrence is an `Index` with three C `int`
  fields, modelled as the newtype `Int32`. A `Shape` is its index stream.
  `Attrib<T>` holds the three pools. `ToUInt32` is the implicit `int` to
  `GLuint` conversion that happens when an index is pushed into
  `mesh_indices`: the value modulo 2^32.
- `mesh_layout.dfy` (module `MeshLayout`) is the specification:
  - `Occurrences` lists the occurrences shape by shape.
  - `VertexIndices` is the index list.
  - `Record` and `Interleave` give the vertex buffer.
  - `Fetch` reads a record back with the attribute layout that the renderer
    declares: stride 8, position at offset 0, normal at 3, texture coordinate
    at 6.
  - The lemmas relate these functions to each other.
- `model3d.dfy` (module `Model`) is the class `Model3D<T>`. Its fields are the
  pose, `meshIndices` and `fullVertexData`. The two constructor loops are the
  methods `AppendMeshIndices` and `AppendVertexData`. The body of the second
  loop, the eight pushes, is `PushRecord`. Each method modifies only the one
  field it grows, so the pose fields are left as the constructor set them.

The float type is the type parameter `T`. The code only stores and copies
floats, never computes with them. All offset arithmetic is on integers.

The constructor reads the pools without any range check. So its precondition
is `ShapesInRange`: every occurrence's three indices are non-negative and
address existing floats. The source computes `vertex_index * 3 + 2` (and the
like) in C `int`. So the precondition also requires these offsets to stay
below 2^31, because a larger offset would be signed overflow. The loader's
`success` flag is ignored by the source, so the model has no error path.

The header `Model3D.h` declares a 12-parameter constructor that includes
`has_normal_maps`, and `Player.cpp` passes 13 arguments. Only the
11-parameter definition in `Model3D.cpp` has a body, and that body is what is
modelled. `Model3D.h` also declares `has_normal_maps`,
`init_data_with_normal_maps`, `init_buffers_with_normals`, `move` and
`scale`, but `Model3D.cpp` defines none of them. So the model has only the
regular 8-float layout.

## Model

| member | source | states |
|---|---|---|
| `TinyObj.ToUInt32` | Model3D.cpp:48 | Pushing an `int` index into the `GLuint` index list keeps a non-negative value unchanged and maps a negative value v to v + 2^32. |
| `MeshLayout.Occurrences` | Model3D.cpp:46-47 | The number of occurrences both loops visit is the number of index triples summed over all shapes. |
| `MeshLayout.OccurrenceAt` | Model3D.cpp:46-50 | Index i of shape s is visited at position (indices in shapes before s) + i, so occurrences are enumerated shape by shape and in index order within a shape. |
| `MeshLayout.OccurrenceOrigin` | Model3D.cpp:46-50 | Conversely, every visited position k comes from some shape s and position i with k = (indices before s) + i, and holds that index triple. |
| `MeshLayout.VertexIndices` | Model3D.cpp:46-50 | The index list has one entry per occurrence, and entry k is the `GLuint` conversion of occurrence k's `vertex_index`. |
| `MeshLayout.Record` | Model3D.cpp:55-69 | The record pushed for one occurrence has exactly 8 floats. |
| `MeshLayout.RecordElements` | Model3D.cpp:58-69 | The record is, float by float, `vertices[3vi]`, `[3vi+1]`, `[3vi+2]`, `normals[3ni]`, `[3ni+1]`, `[3ni+2]`, `texcoords[2ti]`, `[2ti+1]`. |
| `MeshLayout.Interleave` | Model3D.cpp:53-71 | The vertex buffer is 8 floats per occurrence long. |
| `MeshLayout.Fetch` | finalproject.cpp:109-119 | The renderer's attribute pointer for vertex k reads `size` floats at `offset` inside the k-th 8-float record (stride 8; position at 0, normal at 3, texture coordinate at 6). `init_buffers` at Model3D.cpp:104-113 declares the same layout. |
| `MeshLayout.RecordCount` | Model3D.cpp:53-71 | The buffer length is a multiple of 8, and dividing it by 8 gives back the occurrence count. |
| `MeshLayout.InterleaveRecord` | Model3D.cpp:55-69 | Read with the renderer's layout, record k gives back `vertices[3vi..3vi+3]`, `normals[3ni..3ni+3]` and `texcoords[2ti..2ti+2]` for occurrence k's triple (vi, ni, ti). |
| `MeshLayout.IndexedPosition` | Model3D.cpp:46-60 | The two loops agree: index-list entry k equals occurrence k's `vertex_index`, and record k's position is `vertices[3m..3m+3]` for that entry m. |
| `MeshLayout.InterleaveAppend` | Model3D.cpp:53-71 | Interleaving more occurrences only appends records: the buffer for p followed by q is the buffer for p, then the buffer for q. |
| `MeshLayout.OccurrencesAppend` | Model3D.cpp:46-47 | Flattening more shapes only appends their occurrences. |
| `MeshLayout.EarlierShapesPrefix` | Model3D.cpp:46-71 | What the loops have built after the first s shapes is a prefix of the final index list and of the final vertex buffer. |
| `Model.Model3D.DrawCount` | finalproject.cpp:145 | The draw count `fullVertexData.size() / 8` equals the number of index-list entries. |
| `Model.Model3D.constructor` | Model3D.cpp:20-71 | The ten pose fields equal the arguments. The index list is `VertexIndices` of the occurrences and the vertex buffer is their `Interleave`, so there is one 8-float record per index-list entry (`Consistent`). |
| `Model.Model3D.AppendMeshIndices` | Model3D.cpp:46-50 | The first loop appends the occurrences' index-list entries to what was there and changes nothing else. |
| `Model.Model3D.AppendVertexData` | Model3D.cpp:53-71 | The second loop appends the occurrences' records to what was there and changes nothing else. |
| `Model.Model3D.PushRecord` | Model3D.cpp:55-69 | One iteration of the second loop appends exactly the occurrence's 8-float record. |

## Left out

- `init_transformation_matrix` (called at Model3D.cpp:34, defined at 75-87) and `rotate_on_axis` (89-93) are left out. They compose a 4x4 float matrix with the glm library (translate, scale, rotate, `radians`, `normalize`), which is float arithmetic in a library that is not part of this model. The model has no transformation matrix field.
- `init_buffers` and `draw` (Model3D.cpp:96-123) are left out because they only make OpenGL calls; the render loop uses an identical inline copy of `init_buffers` (finalproject.cpp:103-119) and calls `draw` at finalproject.cpp:145. The one fact they depend on, the attribute layout (stride 8, offsets 0, 3 and 6), is modelled by `Fetch`.
- Fetch: counts the stride and the offsets in floats. The source gives the stride as `8 * sizeof(GL_FLOAT)` (an enum constant, so `sizeof(int)` bytes) and the offsets as multiples of `sizeof(GLfloat)`. The model assumes the two sizes are equal, as they are on the platforms OpenGL runs on.
- `tinyobj::LoadObj` (Model3D.cpp:37-43) is not part of this model. Its result (the shapes and the attribute pools) is a parameter of the constructor, and the `path` argument is dropped. The source ignores the loader's `success` flag and keeps the result in module globals that every load reuses (Model3D.cpp:15-18). Neither is modelled. The model takes the result as a fresh value.
- The `has_normal_maps` field and the members that `Model3D.h` declares but `Model3D.cpp` does not define are left out: `init_data_regular`, `init_data_with_normal_maps`, `transMatrix`, `rotate`, `move`, `scale`, `printDepth`, `checkCollision`, `init_buffers_with_normals`. They have no behaviour to model.
- The loop counters `int s` and `int i` are compared with unsigned sizes. Their overflow beyond 2^31 - 1 shapes or indices is not modelled.
- Float values are opaque (the type parameter `T`). The model makes no claim about NaN or rounding, and none is needed, because nothing is computed on them.
- The camera, shader, light, player and main-loop code is GL/GLFW plumbing, float trigonometry, or plain attribute bundles, and is left out.
