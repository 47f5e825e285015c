/**
 * The social app's model accessors: a profile's posts newest first, a
 * post's photos, the url a photo is shown from, and a profile's label.
 * The database tables are sequences of records; a foreign key is the id of
 * the record it points to.
 */
module MiniInsta {
  import opened Seqs

  /** A user profile; `joinDate` is a timestamp. */
  datatype Profile = Profile(
    id: int,
    username: string,
    displayName: string,
    profileImageUrl: string,
    bioText: string,
    joinDate: int)

  /** A post, owned by the profile whose id is `profile`. */
  datatype Post = Post(id: int, profile: int, timestamp: int, caption: string)

  /**
   * An image attached to the post whose id is `post`: a link in `imageUrl`,
   * an uploaded file in `imageFile` (its stored name, empty when none), or both.
   */
  datatype Photo = Photo(id: int, post: int, imageUrl: string, timestamp: int, imageFile: string)

  /**
   * `Profile.__str__`: the two adjacent f-strings join into
   * "<username> or <display name>".
   */
  function ProfileLabel(p: Profile): (r: string)
    ensures |r| == |p.username| + 4 + |p.displayName|
    ensures r[..|p.username|] == p.username
    ensures r[|p.username|..|p.username| + 4] == " or "
    ensures r[|p.username| + 4..] == p.displayName
  {
    p.username + " or " + p.displayName
  }

  /** In the label of a username without spaces, the first space comes right after the username. */
  lemma LabelFirstSpace(p: Profile)
    requires ' ' !in p.username
    ensures ProfileLabel(p)[|p.username|] == ' '
    ensures forall i :: 0 <= i < |p.username| ==> ProfileLabel(p)[i] != ' '
  {
    var r := ProfileLabel(p);
    forall i | 0 <= i < |p.username|
      ensures r[i] != ' '
    {
      assert r[i] == p.username[i];
    }
  }

  /** When usernames have no space, the label tells both names apart. */
  lemma ProfileLabelInjective(p: Profile, q: Profile)
    requires ' ' !in p.username && ' ' !in q.username
    requires ProfileLabel(p) == ProfileLabel(q)
    ensures p.username == q.username && p.displayName == q.displayName
  {
    LabelFirstSpace(p);
    LabelFirstSpace(q);
    assert |p.username| == |q.username|;
  }

  /** `filter(profile=self)` */
  function OwnedBy(owner: int): Post -> bool
  {
    (post: Post) => post.profile == owner
  }

  /** `order_by('-timestamp')`: a newer post, or one of the same time, comes first. */
  predicate NewerFirst(a: Post, b: Post)
  {
    a.timestamp >= b.timestamp
  }

  lemma NewerFirstOrder()
    ensures Total(NewerFirst) && Transitive(NewerFirst)
  {
  }

  /**
   * `Profile.get_all_posts`: the posts of this profile and no other,
   * newest first.
   */
  function GetAllPosts(p: Profile, posts: seq<Post>): (r: seq<Post>)
    ensures forall post :: post in r <==> post in posts && post.profile == p.id
    ensures forall i, j :: 0 <= i < j < |r| ==> r[i].timestamp >= r[j].timestamp
  {
    var own := Filter(posts, OwnedBy(p.id));
    NewerFirstOrder();
    SortBySorted(own, NewerFirst);
    SortByMembers(own, NewerFirst);
    SortBy(own, NewerFirst)
  }

  /** Every one of the profile's posts is listed as often as it is stored, and no other post is. */
  lemma PostsCount(p: Profile, posts: seq<Post>, post: Post)
    ensures multiset(GetAllPosts(p, posts))[post] == if post.profile == p.id then multiset(posts)[post] else 0
  {
    FilterCount(posts, OwnedBy(p.id), post);
  }

  /** Two different profiles share no post. */
  lemma PostsDisjoint(p: Profile, q: Profile, posts: seq<Post>)
    requires p.id != q.id
    ensures multiset(GetAllPosts(p, posts)) !! multiset(GetAllPosts(q, posts))
  {
    forall post
      ensures multiset(GetAllPosts(p, posts))[post] == 0 || multiset(GetAllPosts(q, posts))[post] == 0
    {
      PostsCount(p, posts, post);
      PostsCount(q, posts, post);
    }
  }

  /** `filter(post=self)` */
  function OnPost(post: int): Photo -> bool
  {
    (photo: Photo) => photo.post == post
  }

  /** `Post.get_all_photos`: the photos of this post and no other. */
  function GetAllPhotos(post: Post, photos: seq<Photo>): (r: seq<Photo>)
    ensures forall photo :: photo in r <==> photo in photos && photo.post == post.id
  {
    Filter(photos, OnPost(post.id))
  }

  /** Every photo of the post is listed as often as it is stored, and no other photo is. */
  lemma PhotosCount(post: Post, photos: seq<Photo>, photo: Photo)
    ensures multiset(GetAllPhotos(post, photos))[photo] == if photo.post == post.id then multiset(photos)[photo] else 0
  {
    FilterCount(photos, OnPost(post.id), photo);
  }

  /**
   * `Photo.get_image_url`: an uploaded file, when there is one, is shown
   * from the url storage gives its name (`fileUrl`); otherwise the link is
   * shown, even when it is empty.
   */
  function GetImageUrl(photo: Photo, fileUrl: string -> string): (r: string)
    ensures photo.imageFile != "" ==> r == fileUrl(photo.imageFile)
    ensures photo.imageFile == "" ==> r == photo.imageUrl
  {
    if photo.imageFile != "" then fileUrl(photo.imageFile) else photo.imageUrl
  }

  /** With a file uploaded, the link field has no say in the url shown. */
  lemma FileWinsOverLink(photo: Photo, link: string, fileUrl: string -> string)
    requires photo.imageFile != ""
    ensures GetImageUrl(photo.(imageUrl := link), fileUrl) == GetImageUrl(photo, fileUrl)
  {
  }
}
